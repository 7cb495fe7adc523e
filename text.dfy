/** The string utilities of Go's `strings` package that the core relies on. */
module Text {

  /** strings.Join with a one-character separator. */
  function Join(segs: seq<string>, sep: char): string
  {
    if |segs| == 0 then ""
    else if |segs| == 1 then segs[0]
    else segs[0] + [sep] + Join(segs[1..], sep)
  }

  /** strings.Split with a one-character separator: the maximal separator-free
      pieces between separators; the empty string splits into one empty piece. */
  function Split(s: string, sep: char): (r: seq<string>)
    ensures |r| >= 1
    ensures forall i :: 0 <= i < |r| ==> sep !in r[i]
  {
    if s == [] then [[]]
    else
      var rest := Split(s[1..], sep);
      if s[0] == sep then [[]] + rest
      else
        assert sep !in [s[0]] + rest[0];
        [[s[0]] + rest[0]] + rest[1..]
  }

  /** Joining separator-free pieces puts exactly one separator between
      neighbours and none elsewhere. */
  lemma {:induction false} JoinCount(segs: seq<string>, sep: char)
    requires forall i :: 0 <= i < |segs| ==> sep !in segs[i]
    ensures multiset(Join(segs, sep))[sep] == if |segs| == 0 then 0 else |segs| - 1
  {
    if |segs| > 1 {
      JoinCount(segs[1..], sep);
      var a, b := segs[0] + [sep], Join(segs[1..], sep);
      assert Join(segs, sep) == a + b;
      assert multiset(a + b) == multiset(a) + multiset(b);
      assert multiset(a) == multiset(segs[0]) + multiset([sep]);
    }
  }

  /** Split loses nothing: joining the pieces gives the string back. */
  lemma {:induction false} JoinOfSplit(s: string, sep: char)
    ensures Join(Split(s, sep), sep) == s
  {
    if s != [] {
      JoinOfSplit(s[1..], sep);
      var rest := Split(s[1..], sep);
      assert s == [s[0]] + s[1..];
      if s[0] != sep && |rest| > 1 {
        assert rest == [rest[0]] + rest[1..];
      }
    }
  }

  /** There is one more piece than there are separators. */
  lemma {:induction false} SplitCount(s: string, sep: char)
    ensures |Split(s, sep)| == multiset(s)[sep] + 1
  {
    if s != [] {
      SplitCount(s[1..], sep);
      assert s == [s[0]] + s[1..];
    }
  }

  lemma {:induction false} SplitNoSeparator(a: string, sep: char)
    requires sep !in a
    ensures Split(a, sep) == [a]
  {
    if a != [] {
      SplitNoSeparator(a[1..], sep);
      assert [a[0]] + a[1..] == a;
    }
  }

  lemma {:induction false} SplitCons(a: string, sep: char, b: string)
    requires sep !in a
    ensures Split(a + [sep] + b, sep) == [a] + Split(b, sep)
  {
    var s := a + [sep] + b;
    if a == [] {
      assert s[1..] == b;
    } else {
      assert s[0] == a[0] && s[0] != sep;
      assert s[1..] == a[1..] + [sep] + b;
      SplitCons(a[1..], sep, b);
      var rest := Split(s[1..], sep);
      assert rest[0] == a[1..] && rest[1..] == Split(b, sep);
      assert [a[0]] + a[1..] == a;
      assert Split(s, sep) == [[s[0]] + rest[0]] + rest[1..];
    }
  }

  /** Splitting undoes joining separator-free pieces. */
  lemma {:induction false} SplitOfJoin(segs: seq<string>, sep: char)
    requires |segs| >= 1
    requires forall i :: 0 <= i < |segs| ==> sep !in segs[i]
    ensures Split(Join(segs, sep), sep) == segs
  {
    if |segs| == 1 {
      SplitNoSeparator(segs[0], sep);
    } else {
      SplitOfJoin(segs[1..], sep);
      SplitCons(segs[0], sep, Join(segs[1..], sep));
      assert segs == [segs[0]] + segs[1..];
    }
  }

  lemma Join3(a: string, b: string, c: string, sep: char)
    ensures Join([a, b, c], sep) == a + [sep] + b + [sep] + c
  {
    assert [a, b, c][1..] == [b, c];
    assert [b, c][1..] == [c];
    assert Join([b, c], sep) == b + [sep] + c;
    assert Join([a, b, c], sep) == a + [sep] + (b + [sep] + c);
  }

  lemma Join2(a: string, b: string, sep: char)
    ensures Join([a, b], sep) == a + [sep] + b
  {
    assert [a, b][1..] == [b];
  }

  /** strings.HasPrefix: `s` begins with `prefix`, character by character. */
  predicate HasPrefix(s: string, prefix: string): (b: bool)
    ensures b <==> |prefix| <= |s| && forall i :: 0 <= i < |prefix| ==> s[i] == prefix[i]
    ensures b ==> s == prefix + s[|prefix|..]
  {
    |prefix| <= |s| && s[..|prefix|] == prefix
  }

  /** strings.TrimLeft with a one-character cutset: drops every leading `c`. */
  function TrimLeft(s: string, c: char): (r: string)
    ensures |r| <= |s| && r == s[|s| - |r|..]
    ensures forall i :: 0 <= i < |s| - |r| ==> s[i] == c
    ensures r == [] || r[0] != c
  {
    if s != [] && s[0] == c then TrimLeft(s[1..], c) else s
  }

  /** `k` copies of `c`. */
  function Repeat(c: char, k: nat): (r: string)
    ensures |r| == k
  {
    if k == 0 then [] else [c] + Repeat(c, k - 1)
  }

  /** TrimLeft removes a whole run of `c`, and nothing after it. */
  lemma {:induction false} TrimLeftRun(c: char, k: nat, t: string)
    requires t == [] || t[0] != c
    ensures TrimLeft(Repeat(c, k) + t, c) == t
  {
    var s := Repeat(c, k) + t;
    if k == 0 {
      assert s == t;
    } else {
      assert Repeat(c, k) == [c] + Repeat(c, k - 1);
      assert s == [c] + (Repeat(c, k - 1) + t);
      assert s[1..] == Repeat(c, k - 1) + t;
      assert TrimLeft(s, c) == TrimLeft(s[1..], c);
      TrimLeftRun(c, k - 1, t);
    }
  }
}
