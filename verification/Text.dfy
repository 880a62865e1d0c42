/** The few operations of the Rust string library that the modelled files use, on `seq<char>`. */
module Text {

  /** `str::split(char)`: always yields at least one piece. */
  function SplitOn(s: string, c: char): (r: seq<string>)
    ensures |r| >= 1
  {
    if s == "" then [""]
    else
      var rest := SplitOn(s[1..], c);
      if s[0] == c then [""] + rest else [[s[0]] + rest[0]] + rest[1..]
  }

  /** `[&str]::join` with a one-character separator. */
  function JoinWith(ps: seq<string>, c: char): string
  {
    if |ps| == 0 then ""
    else if |ps| == 1 then ps[0]
    else ps[0] + [c] + JoinWith(ps[1..], c)
  }

  /** `str::replace(char, &str)` for a one-character replacement. */
  function Replace(s: string, a: char, b: char): (r: string)
    ensures |r| == |s|
    ensures forall i :: 0 <= i < |s| ==> r[i] == if s[i] == a then b else s[i]
  {
    seq(|s|, i requires 0 <= i < |s| => if s[i] == a then b else s[i])
  }

  predicate EndsWith(s: string, t: string)
  {
    |t| <= |s| && s[|s| - |t|..] == t
  }

  /** `str::trim_end_matches(&str)`: strips the suffix as often as it is there. */
  function TrimEndMatches(s: string, t: string): string
    requires t != ""
  {
    if EndsWith(s, t) then TrimEndMatches(s[..|s| - |t|], t) else s
  }

  /** Every piece is free of the separator. */
  predicate Free(ps: seq<string>, c: char)
  {
    forall i :: 0 <= i < |ps| ==> c !in ps[i]
  }

  lemma {:induction false} JoinSplit(s: string, c: char)
    ensures JoinWith(SplitOn(s, c), c) == s
    ensures Free(SplitOn(s, c), c)
  {
    if s != "" {
      JoinSplit(s[1..], c);
      var rest := SplitOn(s[1..], c);
      if s[0] == c {
        assert ([""] + rest)[1..] == rest;
      } else {
        var r := [[s[0]] + rest[0]] + rest[1..];
        assert r[1..] == rest[1..];
        assert s == [s[0]] + s[1..];
      }
    }
  }

  lemma {:induction false} SplitJoin(ps: seq<string>, c: char)
    requires |ps| >= 1 && Free(ps, c)
    ensures SplitOn(JoinWith(ps, c), c) == ps
  {
    if |ps| == 1 {
      SplitWhole(ps[0], c);
    } else {
      SplitJoin(ps[1..], c);
      SplitHead(ps[0], JoinWith(ps[1..], c), c);
      assert ps == [ps[0]] + ps[1..];
      assert ps[0] + [c] + JoinWith(ps[1..], c) == ps[0] + ([c] + JoinWith(ps[1..], c));
    }
  }

  lemma {:induction false} SplitWhole(s: string, c: char)
    requires c !in s
    ensures SplitOn(s, c) == [s]
  {
    if s != "" {
      SplitWhole(s[1..], c);
      assert s == [s[0]] + s[1..];
    }
  }

  /** The first separator ends the first piece. */
  lemma {:induction false} SplitHead(a: string, b: string, c: char)
    requires c !in a
    ensures SplitOn(a + ([c] + b), c) == [a] + SplitOn(b, c)
  {
    var s := a + ([c] + b);
    if a == "" {
      assert s[1..] == b;
    } else {
      SplitHead(a[1..], b, c);
      assert s[1..] == a[1..] + ([c] + b);
      assert a == [a[0]] + a[1..];
    }
  }

  /** `r` with text added to its last piece. */
  function Extended(r: seq<string>, t: string): seq<string>
    requires |r| >= 1
  {
    r[..|r| - 1] + [r[|r| - 1] + t]
  }

  lemma ExtendedCons(x: char, rest: seq<string>, t: string)
    requires |rest| >= 1
    ensures Extended([""] + rest, t) == [""] + Extended(rest, t)
    ensures Extended([[x] + rest[0]] + rest[1..], t) == [[x] + Extended(rest, t)[0]] + Extended(rest, t)[1..]
  {
    if |rest| == 1 {
      assert [x] + (rest[0] + t) == [x] + rest[0] + t;
    }
  }

  /** Text that holds no separator extends the last piece only. */
  lemma {:induction false} SplitAppend(s: string, t: string, c: char)
    requires c !in t
    ensures SplitOn(s + t, c) == Extended(SplitOn(s, c), t)
  {
    if s == "" {
      SplitWhole(t, c);
      assert s + t == t && "" + t == t;
    } else {
      SplitAppend(s[1..], t, c);
      assert (s + t)[1..] == s[1..] + t && (s + t)[0] == s[0];
      ExtendedCons(s[0], SplitOn(s[1..], c), t);
    }
  }

  /** A character other than the separator occurs in the text iff it occurs in a piece. */
  lemma {:induction false} SplitMembers(s: string, c: char, d: char)
    requires d != c
    ensures d in s <==> exists i :: 0 <= i < |SplitOn(s, c)| && d in SplitOn(s, c)[i]
  {
    if s != "" {
      SplitMembers(s[1..], c, d);
      var rest := SplitOn(s[1..], c);
      var r := SplitOn(s, c);
      assert s == [s[0]] + s[1..];
      if s[0] == c {
        assert forall i :: 0 <= i < |rest| ==> r[i + 1] == rest[i];
        if i :| 0 <= i < |rest| && d in rest[i] { assert d in r[i + 1]; }
      } else {
        assert forall i :: 0 < i < |rest| ==> r[i] == rest[i];
        if i :| 0 <= i < |rest| && d in rest[i] { assert d in r[i]; }
        if s[0] == d { assert d in r[0]; }
      }
    }
  }
}
