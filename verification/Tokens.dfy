/** Splitting text into words: the string operations that the wire format is parsed with. */
module Tokens {
  import opened Text

  /** `char::is_whitespace`: the Unicode property White_Space. */
  predicate White(c: char)
  {
    || '\U{9}' <= c <= '\U{D}' || c == ' ' || c == '\U{85}' || c == '\U{A0}' || c == '\U{1680}'
    || '\U{2000}' <= c <= '\U{200A}' || c == '\U{2028}' || c == '\U{2029}'
    || c == '\U{202F}' || c == '\U{205F}' || c == '\U{3000}'
  }

  predicate NoWhite(s: string)
  {
    forall i :: 0 <= i < |s| ==> !White(s[i])
  }

  /** What one word of a message can be. */
  predicate Token(s: string)
  {
    s != "" && NoWhite(s)
  }

  predicate AllTokens(ts: seq<string>)
  {
    forall i :: 0 <= i < |ts| ==> Token(ts[i])
  }

  /** Length of the leading run without whitespace. */
  function WordLength(s: string): (n: nat)
    ensures n <= |s| && NoWhite(s[..n])
    ensures n < |s| ==> White(s[n])
  {
    if s == "" || White(s[0]) then 0
    else
      var n := WordLength(s[1..]);
      assert s[..n + 1] == [s[0]] + s[1..][..n];
      n + 1
  }

  /** `str::split_whitespace` */
  function Words(s: string): seq<string>
    decreases |s|
  {
    if s == "" then []
    else if White(s[0]) then Words(s[1..])
    else
      var n := WordLength(s);
      [s[..n]] + Words(s[n..])
  }

  /** `str::trim_start` */
  function TrimStart(s: string): string
  {
    if s != "" && White(s[0]) then TrimStart(s[1..]) else s
  }

  /** `str::trim_end` */
  function TrimEnd(s: string): string
  {
    if s != "" && White(s[|s| - 1]) then TrimEnd(s[..|s| - 1]) else s
  }

  /** `str::splitn`: the last piece keeps its separators. */
  function SplitN(s: string, n: nat, c: char): (r: seq<string>)
    requires n >= 1
    ensures 1 <= |r| <= n
  {
    var all := SplitOn(s, c);
    if |all| <= n then all else all[..n - 1] + [JoinWith(all[n - 1..], c)]
  }

  /** Each word with a space in front, as `push_str(&format!(" {}", word))` in a loop writes them. */
  function Spaced(ts: seq<string>): string
  {
    if ts == [] then "" else Spaced(ts[..|ts| - 1]) + " " + ts[|ts| - 1]
  }

  lemma {:induction false} WordLengthOf(t: string, rest: string)
    requires NoWhite(t) && (rest != "" ==> White(rest[0]))
    ensures WordLength(t + rest) == |t|
  {
    var s := t + rest;
    if t == "" {
      assert s == rest;
    } else {
      assert s[1..] == t[1..] + rest;
      WordLengthOf(t[1..], rest);
    }
  }

  /** A word in front of text that does not go on with it. */
  lemma WordFirst(t: string, rest: string)
    requires Token(t) && (rest != "" ==> White(rest[0]))
    ensures Words(t + rest) == [t] + Words(rest)
  {
    var s := t + rest;
    WordLengthOf(t, rest);
    assert s[..|t|] == t && s[|t|..] == rest;
  }

  lemma SkipSpace(s: string)
    ensures Words(" " + s) == Words(s)
  {
    assert (" " + s)[1..] == s;
  }

  lemma Regroup(a: string, b: string, c: string, d: string)
    ensures (a + b + c) + d == a + (b + (c + d))
  {
  }

  lemma WordAfterSpace(a: string, rest: string)
    requires Token(a) && (rest != "" ==> White(rest[0]))
    ensures Words(" " + (a + rest)) == [a] + Words(rest)
  {
    SkipSpace(a + rest);
    WordFirst(a, rest);
  }

  /** Two words in front of text that does not go on with the second. */
  lemma TwoFirst(a: string, b: string, rest: string)
    requires Token(a) && Token(b) && (rest != "" ==> White(rest[0]))
    ensures Words(" " + ((a + " " + b) + rest)) == [a] + ([b] + Words(rest))
  {
    Regroup(a, " ", b, rest);
    WordAfterSpace(b, rest);
    WordAfterSpace(a, " " + (b + rest));
  }

  lemma SpacedTwo(ts: seq<string>, a: string, b: string)
    ensures Spaced(ts + [a, b]) == Spaced(ts) + (" " + a + " " + b)
  {
    var all := ts + [a, b];
    assert all[..|all| - 1] == ts + [a] && (ts + [a])[..|ts|] == ts;
    assert Spaced(ts + [a]) == Spaced(ts) + " " + a;
  }

  lemma {:induction false} SpacedCons(t: string, ts: seq<string>)
    ensures Spaced([t] + ts) == " " + t + Spaced(ts)
  {
    var all := [t] + ts;
    if ts == [] {
      assert all[..0] == [];
      assert Spaced(all) == "" + " " + t;
    } else {
      var n := |ts| - 1;
      assert all[..|all| - 1] == [t] + ts[..n] && all[|all| - 1] == ts[n];
      SpacedCons(t, ts[..n]);
      assert " " + t + Spaced(ts[..n]) + " " + ts[n] == " " + t + (Spaced(ts[..n]) + " " + ts[n]);
    }
  }

  /** `ts` without the empty ones. */
  function Dense(ts: seq<string>): seq<string>
  {
    if ts == [] then [] else (if ts[0] == "" then [] else [ts[0]]) + Dense(ts[1..])
  }

  lemma {:induction false} DenseTokens(ts: seq<string>)
    ensures |Dense(ts)| <= |ts|
    ensures |Dense(ts)| == |ts| <==> "" !in ts
    ensures "" !in ts ==> Dense(ts) == ts
  {
    if ts != [] {
      assert ts == [ts[0]] + ts[1..];
      DenseTokens(ts[1..]);
    }
  }

  /** Words written with single spaces read back as they were, in order and with repetitions,
      except that empty ones are lost. */
  lemma {:induction false} WordsSpaced(ts: seq<string>)
    requires forall i :: 0 <= i < |ts| ==> NoWhite(ts[i])
    ensures Words(Spaced(ts)) == Dense(ts)
    ensures Spaced(ts) != "" ==> White(Spaced(ts)[0])
  {
    if ts != [] {
      var t, rest := ts[0], ts[1..];
      assert ts == [t] + rest;
      WordsSpaced(rest);
      SpacedCons(t, rest);
      var s := Spaced(ts);
      assert s[1..] == t + Spaced(rest);
      if t == "" {
        assert s[1..] == Spaced(rest);
      } else {
        WordFirst(t, Spaced(rest));
      }
    }
  }

  lemma {:induction false} WordsAreTokens(s: string)
    ensures AllTokens(Words(s))
    decreases |s|
  {
    if s != "" {
      if White(s[0]) {
        WordsAreTokens(s[1..]);
      } else {
        WordsAreTokens(s[WordLength(s)..]);
      }
    }
  }

  /** `join(" ")` on words, then splitting again. */
  lemma {:induction false} WordsJoined(ts: seq<string>)
    requires AllTokens(ts)
    ensures Words(JoinWith(ts, ' ')) == ts
    ensures ts != [] ==> !White(JoinWith(ts, ' ')[0])
  {
    if |ts| == 1 {
      WordFirst(ts[0], "");
      assert ts[0] + "" == ts[0] && [ts[0]] + [] == ts;
    } else if |ts| > 1 {
      WordsJoined(ts[1..]);
      var rest := [' '] + JoinWith(ts[1..], ' ');
      assert rest[1..] == JoinWith(ts[1..], ' ');
      WordFirst(ts[0], rest);
      assert JoinWith(ts, ' ') == ts[0] + rest && ts == [ts[0]] + ts[1..];
    }
  }

  lemma {:induction false} TrimStartWords(s: string)
    ensures Words(TrimStart(s)) == Words(s)
    ensures TrimStart(s) != "" ==> !White(TrimStart(s)[0])
  {
    if s != "" && White(s[0]) { TrimStartWords(s[1..]); }
  }

  /** Single spaces between words, and no other whitespace. */
  predicate NormalSpacing(s: string)
  {
    forall i :: 0 <= i < |s| && White(s[i]) ==> s[i] == ' ' && 0 < i < |s| - 1 && !White(s[i + 1])
  }

  /** Joining the words of a text with spaces gives the text back exactly if it is spaced that way. */
  lemma RejoinedExactly(s: string)
    ensures JoinWith(Words(s), ' ') == s <==> NormalSpacing(s)
  {
    WordsAreTokens(s);
    JoinedIsNormal(Words(s));
    if NormalSpacing(s) { NormalRejoins(s); }
  }

  lemma {:induction false} JoinedIsNormal(ts: seq<string>)
    requires AllTokens(ts)
    ensures NormalSpacing(JoinWith(ts, ' '))
  {
    if |ts| > 1 {
      JoinedIsNormal(ts[1..]);
      WordsJoined(ts[1..]);
      var t, rest := ts[0], JoinWith(ts[1..], ' ');
      var s := t + [' '] + rest;
      assert rest != "" by { assert Words("") == []; }
      forall i | 0 <= i < |s| && White(s[i]) ensures s[i] == ' ' && 0 < i < |s| - 1 && !White(s[i + 1]) {
        if i == |t| {
          assert s[i + 1] == rest[0];
        } else if i > |t| {
          assert s[i] == rest[i - |t| - 1];
        }
      }
    } else if |ts| == 1 {
      assert NoWhite(ts[0]);
    }
  }

  lemma {:induction false} NormalRejoins(s: string)
    requires NormalSpacing(s)
    ensures JoinWith(Words(s), ' ') == s
    decreases |s|
  {
    if s != "" {
      var n := WordLength(s);
      assert !White(s[0]);
      if n == |s| {
        assert s[n..] == "" && s[..n] == s && [s] + [] == [s];
      } else {
        var rest := s[n + 1..];
        forall i | 0 <= i < |rest| && White(rest[i])
          ensures rest[i] == ' ' && 0 < i < |rest| - 1 && !White(rest[i + 1])
        {
          assert rest[i] == s[n + 1 + i];
        }
        NormalRejoins(rest);
        assert s[n..][1..] == rest && s == s[..n] + [' '] + rest;
        assert rest != "" && !White(rest[0]);
        assert Words(rest) != [];
        assert Words(s)[1..] == Words(rest);
      }
    }
  }

  /** Text without separators in its pieces is split into exactly those pieces. */
  lemma SplitNJoined(ps: seq<string>, n: nat, c: char)
    requires 1 <= |ps| <= n && Free(ps, c)
    ensures SplitN(JoinWith(ps, c), n, c) == ps
  {
    SplitJoin(ps, c);
  }

  /** All pieces but the last possible one are free of the separator. */
  lemma SplitNFree(s: string, n: nat, c: char, i: nat)
    requires n >= 1 && i < |SplitN(s, n, c)| && i < n - 1
    ensures c !in SplitN(s, n, c)[i]
  {
    JoinSplit(s, c);
    assert SplitN(s, n, c)[i] == SplitOn(s, c)[i];
  }

  // ---- which characters separate words ----

  /** The 25 characters that have the Unicode property White_Space. */
  const WHITE_SPACE := "\t\n\U{B}\U{C}\r \U{85}\U{A0}\U{1680}\U{2000}\U{2001}\U{2002}\U{2003}\U{2004}\U{2005}"
    + "\U{2006}\U{2007}\U{2008}\U{2009}\U{200A}\U{2028}\U{2029}\U{202F}\U{205F}\U{3000}"

  lemma WhiteExactly(c: char)
    ensures White(c) <==> c in WHITE_SPACE
  {
    var head := "\t\n\U{B}\U{C}\r \U{85}\U{A0}\U{1680}\U{2000}\U{2001}\U{2002}\U{2003}\U{2004}\U{2005}";
    var tail := "\U{2006}\U{2007}\U{2008}\U{2009}\U{200A}\U{2028}\U{2029}\U{202F}\U{205F}\U{3000}";
    assert WHITE_SPACE == head + tail;
    assert White(c) <==> c in head || c in tail;
  }

  /** `s` with every other white character replaced by a space. */
  function Blanked(s: string): (r: string)
    ensures |r| == |s| && forall i :: 0 <= i < |s| ==> r[i] == if s[i] in WHITE_SPACE then ' ' else s[i]
  {
    seq(|s|, i requires 0 <= i < |s| => if s[i] in WHITE_SPACE then ' ' else s[i])
  }

  lemma BlankedAt(s: string, i: nat)
    requires i < |s|
    ensures White(Blanked(s)[i]) <==> White(s[i])
    ensures !White(s[i]) ==> Blanked(s)[i] == s[i]
  {
    WhiteExactly(s[i]);
  }

  lemma BlankedTail(s: string, n: nat)
    requires n <= |s|
    ensures Blanked(s)[n..] == Blanked(s[n..])
  {
  }

  /** Tabs, newlines and the rest separate words just as spaces do. */
  lemma {:induction false} WordsBlanked(s: string)
    ensures Words(Blanked(s)) == Words(s)
    ensures WordLength(Blanked(s)) == WordLength(s)
    decreases |s|
  {
    if s != "" {
      var b := Blanked(s);
      BlankedAt(s, 0);
      BlankedTail(s, 1);
      WordsBlanked(s[1..]);
      if !White(s[0]) {
        var n := WordLength(s);
        BlankedTail(s, n);
        WordsBlanked(s[n..]);
        forall i | 0 <= i < n ensures b[i] == s[i] {
          assert s[i] == s[..n][i];
          BlankedAt(s, i);
        }
        hide White;
        assert b[..n] == s[..n];
      }
    }
  }

  /** White characters at the end are no part of a word. */
  lemma {:induction false} WordsThenWhite(s: string, c: char)
    requires White(c)
    ensures Words(s + [c]) == Words(s)
    ensures WordLength(s + [c]) == WordLength(s)
    decreases |s|
  {
    var t := s + [c];
    if s == "" {
      assert t[1..] == "";
    } else {
      assert t[1..] == s[1..] + [c];
      WordsThenWhite(s[1..], c);
      if !White(s[0]) {
        var n := WordLength(s);
        assert t[n..] == s[n..] + [c] && t[..n] == s[..n];
        WordsThenWhite(s[n..], c);
      }
    }
  }

  lemma {:induction false} WordsTrimEnd(s: string)
    ensures Words(TrimEnd(s)) == Words(s)
    ensures TrimEnd(s) <= s && (TrimEnd(s) != "" ==> !White(TrimEnd(s)[|TrimEnd(s)| - 1]))
    ensures NoWords(s[|TrimEnd(s)|..])
  {
    if s != "" && White(s[|s| - 1]) {
      var t := s[..|s| - 1];
      assert s == t + [s[|s| - 1]];
      WordsThenWhite(t, s[|s| - 1]);
      WordsTrimEnd(t);
      assert s[|TrimEnd(s)|..] == t[|TrimEnd(s)|..] + [s[|s| - 1]];
    }
  }

  /** Nothing but white characters. */
  predicate NoWords(s: string)
  {
    forall i :: 0 <= i < |s| ==> White(s[i])
  }

  /** A line's end, in either of the usual forms, is trimmed with what is white before it. */
  lemma LineEnds(s: string)
    ensures TrimEnd(s + "\n") == TrimEnd(s) == TrimEnd(s + "\r\n")
    ensures Words(s + "\n") == Words(s) == Words(s + "\r\n")
  {
    WhiteExactly('\n');
    WhiteExactly('\r');
    assert s + "\n" == s + ['\n'] && s + "\r\n" == s + ['\r'] + ['\n'];
    assert (s + ['\n'])[..|s|] == s && (s + ['\r'])[..|s|] == s;
    assert (s + ['\r'] + ['\n'])[..|s| + 1] == s + ['\r'];
    WordsThenWhite(s, '\n');
    WordsThenWhite(s, '\r');
    WordsThenWhite(s + ['\r'], '\n');
  }
}
