/** The version value's test vectors, as lemmas about the model. */
module VersionExamples {
  import opened Results
  import opened Text
  import opened Decimal
  import opened Versions

  lemma Numerals()
    ensures NatToString(0) == "0" && NatToString(1) == "1" && NatToString(2) == "2"
    ensures NatToString(3) == "3" && NatToString(4) == "4" && NatToString(5) == "5"
  {
  }

  /** The full form of a version whose fields are single digits. */
  lemma FullForm(a: nat, b: nat, c: nat, text: string)
    requires a < 10 && b < 10 && c < 10
    requires text == ['v', DigitChar(a), '.', DigitChar(b), '.', DigitChar(c)]
    ensures String(Triple(a, b, c)) == text
  {
    Join3([DigitChar(a)], [DigitChar(b)], [DigitChar(c)], Separator);
  }

  lemma FullFormExamples()
    ensures String(Triple(1, 2, 0)) == "v1.2.0"
    ensures String(Zero) == "v0.0.0"
    ensures StringNumber(Triple(0, 0, 2)) == "0.0.2"
  {
    FullForm(1, 2, 0, "v1.2.0");
    FullForm(0, 0, 0, "v0.0.0");
    FullForm(0, 0, 2, "v0.0.2");
  }

  lemma ShortFormBuild()
    ensures StringShort(Triple(0, 0, 3)) == "v0.0.3"
    ensures StringShort(Triple(1, 0, 3)) == "v1.0.3"
  {
    Numerals();
    assert [NatToString(0)] + [NatToString(0)] + [NatToString(3)] == ["0", "0", "3"];
    assert [NatToString(1)] + [NatToString(0)] + [NatToString(3)] == ["1", "0", "3"];
    Join3("0", "0", "3", Separator);
    Join3("1", "0", "3", Separator);
  }

  lemma ShortFormTrailingZeros()
    ensures StringShort(Triple(1, 2, 0)) == "v1.2"
    ensures StringShort(Triple(1, 0, 0)) == "v1"
    ensures StringShort(Zero) == "v0"
  {
    Numerals();
    assert [NatToString(1)] + [NatToString(2)] == ["1", "2"];
    Join2("1", "2", Separator);
  }

  lemma ParseEmpty()
    ensures Parse("") == Ok(Zero) && Parse("v") == Ok(Zero)
  {
    SplitNoSeparator("v", Separator);
    EmptySegmentIsZero();
    ParseUIntAfterVs(1, "");
    assert Repeat(Prefix, 1) + "" == "v";
  }

  lemma ParseMajorOnly()
    ensures Parse("1") == Ok(Triple(1, 0, 0))
  {
    Numerals();
    SplitNoSeparator("1", Separator);
    assert Repeat(Prefix, 0) + "1" == "1";
    ParseNumerals(Triple(1, 0, 0), "1", 0);
  }

  lemma ParseMajorMinor()
    ensures Parse("1.2") == Ok(Triple(1, 2, 0))
  {
    Numerals();
    SplitNoSeparator("2", Separator);
    SplitCons("1", Separator, "2");
    assert Repeat(Prefix, 0) + "1" == "1";
    ParseNumerals(Triple(1, 2, 0), "1.2", 0);
  }

  lemma ParseFull()
    ensures Parse("1.2.3") == Ok(Triple(1, 2, 3))
  {
    Numerals();
    SplitNoSeparator("3", Separator);
    SplitCons("2", Separator, "3");
    SplitCons("1", Separator, "2.3");
    assert Repeat(Prefix, 0) + "1" == "1";
    ParseNumerals(Triple(1, 2, 3), "1.2.3", 0);
  }

  lemma ParsePrefixed()
    ensures Parse("v1.2.3") == Ok(Triple(1, 2, 3))
  {
    Numerals();
    SplitNoSeparator("3", Separator);
    SplitCons("2", Separator, "3");
    SplitCons("v1", Separator, "2.3");
    assert Repeat(Prefix, 1) + "1" == "v1";
    ParseNumerals(Triple(1, 2, 3), "v1.2.3", 1);
  }

  lemma ParseRejectsFourSegments()
    ensures Parse("1.2.3.4") == Err(TooManySegments)
  {
    SplitNoSeparator("4", Separator);
    SplitCons("3", Separator, "4");
    SplitCons("2", Separator, "3.4");
    SplitCons("1", Separator, "2.3.4");
    assert |Split("1.2.3.4", Separator)| == 4;
  }

  lemma ParseRejectsLetters()
    ensures Parse("1.x.3") == Err(Syntax)
  {
    SplitNoSeparator("3", Separator);
    SplitCons("x", Separator, "3");
    SplitCons("1", Separator, "x.3");
    assert Split("1.x.3", Separator) == ["1", "x", "3"];
    Numerals();
    ParseUIntNumeral(0, 1);
    assert Repeat(Prefix, 0) + "1" == "1";
    assert !HasPrefix("x", [Prefix]);
    assert ParseUint64("x") == Err(Syntax);
  }

  lemma SegmentExamples()
    ensures ParseUInt("vv5") == Ok(5)
  {
    Numerals();
    ParseUIntNumeral(2, 5);
    assert Repeat(Prefix, 2) == "vv";
  }

  lemma IncreaseExamples()
    ensures Increased(Triple(1, 2, 3), 0, 1, 0) == Triple(1, 3, 0)
    ensures Increased(Triple(1, 2, 3), 0, 0, 1) == Triple(1, 2, 4)
    ensures Increased(Triple(1, 2, 3), 1, 0, 0) == Triple(2, 0, 0)
    ensures Increased(Triple(1, 2, 3), 2, 0, 0) == Triple(3, 0, 0)
    ensures Increased(Triple(1, 0, 0), 1, 1, 1) == Triple(2, 1, 1)
  {
  }
}
