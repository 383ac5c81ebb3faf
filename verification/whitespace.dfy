/** Python 2's `str.split()` without arguments: the string is cut at runs of
    whitespace, and leading and trailing whitespace produce no empty tokens. */
module Whitespace {

  /** The characters a Python 2 byte string treats as whitespace. */
  predicate IsSpace(c: char) {
    c == ' ' || c == '\t' || c == '\n' || c == '\r' || c == '\U{000B}' || c == '\U{000C}'
  }

  /** No character of `s` is whitespace. */
  predicate NoSpace(s: string) {
    forall i | 0 <= i < |s| :: !IsSpace(s[i])
  }

  /** A token of `split()`: a non-empty run without whitespace. */
  predicate IsWord(w: string) {
    |w| > 0 && NoSpace(w)
  }

  /** The tokens, glued end to end. */
  function Concat(ts: seq<string>): string {
    if ts == [] then [] else ts[0] + Concat(ts[1..])
  }

  /** The characters of `s` that are not whitespace, in order. */
  function NonSpace(s: string): string {
    if s == [] then []
    else if IsSpace(s[0]) then NonSpace(s[1..])
    else [s[0]] + NonSpace(s[1..])
  }

  /** The longest prefix of `s` that holds no whitespace. */
  function Word(s: string): (w: string)
    ensures |w| <= |s|
    ensures s != [] && !IsSpace(s[0]) ==> |w| > 0
  {
    if s == [] || IsSpace(s[0]) then [] else [s[0]] + Word(s[1..])
  }

  /** The tokens of `s`, left to right. */
  function Split(s: string): seq<string>
    decreases |s|
  {
    if s == [] then []
    else if IsSpace(s[0]) then Split(s[1..])
    else
      var w := Word(s);
      [w] + Split(s[|w|..])
  }

  /** Tokens joined by single blanks: the canonical text with tokens `ts`. */
  function Join(ts: seq<string>): string {
    if |ts| <= 1 then Concat(ts) else ts[0] + [' '] + Join(ts[1..])
  }

  /** `Word` takes a whitespace-free prefix and stops only at whitespace. */
  lemma {:induction false} WordIsMaximalPrefix(s: string)
    ensures s == Word(s) + s[|Word(s)|..]
    ensures NoSpace(Word(s))
    ensures |Word(s)| < |s| ==> IsSpace(s[|Word(s)|])
  {
    if s != [] && !IsSpace(s[0]) {
      WordIsMaximalPrefix(s[1..]);
      assert Word(s) == [s[0]] + Word(s[1..]);
    }
  }

  lemma WordOfNoSpace(s: string, rest: string)
    requires NoSpace(s)
    requires rest == [] || IsSpace(rest[0])
    ensures Word(s + rest) == s
  {
    if s != [] {
      assert (s + rest)[1..] == s[1..] + rest;
      WordOfNoSpace(s[1..], rest);
    }
  }

  /** Every token of `split()` is non-empty and free of whitespace. */
  lemma {:induction false} SplitYieldsWords(s: string)
    ensures forall k | 0 <= k < |Split(s)| :: IsWord(Split(s)[k])
    decreases |s|
  {
    if s == [] {
    } else if IsSpace(s[0]) {
      SplitYieldsWords(s[1..]);
    } else {
      WordIsMaximalPrefix(s);
      SplitYieldsWords(s[|Word(s)|..]);
    }
  }

  /** A token followed by whitespace (or by nothing) is split off first. */
  lemma SplitWordThen(w: string, rest: string)
    requires IsWord(w)
    requires rest == [] || IsSpace(rest[0])
    ensures Split(w + rest) == [w] + Split(rest)
  {
    var s := w + rest;
    WordOfNoSpace(w, rest);
    assert s[|w|..] == rest;
  }

  /** A single token splits into itself. */
  lemma SplitWord(w: string)
    requires IsWord(w)
    ensures Split(w) == [w]
  {
    SplitWordThen(w, []);
    assert w + [] == w;
  }

  /** Whitespace in front of a string adds no token. */
  lemma SplitLeadingSpace(c: char, s: string)
    requires IsSpace(c)
    ensures Split([c] + s) == Split(s)
  {
    assert ([c] + s)[1..] == s;
  }

  /** The case of `SplitAtSpace` where `a` opens with whitespace, given the
      claim for the rest of `a`. */
  lemma SplitAtSpaceAfterBlank(a: string, c: char, b: string)
    requires IsSpace(c) && a != [] && IsSpace(a[0])
    requires Split(a[1..] + [c] + b) == Split(a[1..]) + Split(b)
    ensures Split(a + [c] + b) == Split(a) + Split(b)
  {
    assert a + [c] + b == [a[0]] + (a[1..] + [c] + b);
    SplitLeadingSpace(a[0], a[1..] + [c] + b);
    assert a == [a[0]] + a[1..];
    SplitLeadingSpace(a[0], a[1..]);
  }

  /** The case of `SplitAtSpace` where `a` opens with a token, given the claim
      for what follows that token. */
  lemma SplitAtSpaceAfterWord(a: string, c: char, b: string)
    requires IsSpace(c) && a != [] && !IsSpace(a[0])
    requires Split(a[|Word(a)|..] + [c] + b) == Split(a[|Word(a)|..]) + Split(b)
    ensures Split(a + [c] + b) == Split(a) + Split(b)
  {
    var w := Word(a);
    var rest := a[|w|..];
    WordIsMaximalPrefix(a);
    assert rest == [] || IsSpace(rest[0]);
    var tail := rest + [c] + b;
    assert tail[0] == if rest == [] then c else rest[0];
    assert a + [c] + b == w + tail;
    SplitWordThen(w, rest);
    SplitWordThen(w, tail);
    calc {
      Split(a + [c] + b);
      Split(w + tail);
      [w] + Split(tail);
      [w] + (Split(rest) + Split(b));
      ([w] + Split(rest)) + Split(b);
      Split(w + rest) + Split(b);
      { assert w + rest == a; }
      Split(a) + Split(b);
    }
  }

  /** A whitespace character cuts the string into two independently split halves. */
  lemma {:induction false} SplitAtSpace(a: string, c: char, b: string)
    requires IsSpace(c)
    ensures Split(a + [c] + b) == Split(a) + Split(b)
    decreases |a|
  {
    if a == [] {
      assert a + [c] + b == [c] + b;
      SplitLeadingSpace(c, b);
    } else if IsSpace(a[0]) {
      SplitAtSpace(a[1..], c, b);
      SplitAtSpaceAfterBlank(a, c, b);
    } else {
      SplitAtSpace(a[|Word(a)|..], c, b);
      SplitAtSpaceAfterWord(a, c, b);
    }
  }

  /** Splitting undoes joining: tokens survive a round trip through their text. */
  lemma {:induction false} SplitJoin(ts: seq<string>)
    requires forall k | 0 <= k < |ts| :: IsWord(ts[k])
    ensures Split(Join(ts)) == ts
  {
    if |ts| == 0 {
    } else if |ts| == 1 {
      assert Concat(ts) == ts[0] + Concat([]);
      assert Concat(ts) == ts[0];
      SplitWord(ts[0]);
    } else {
      SplitAtSpace(ts[0], ' ', Join(ts[1..]));
      SplitWord(ts[0]);
      SplitJoin(ts[1..]);
      assert ts == [ts[0]] + ts[1..];
    }
  }

  lemma NonSpaceAppend(a: string, b: string)
    ensures NonSpace(a + b) == NonSpace(a) + NonSpace(b)
  {
    if a != [] {
      assert (a + b)[1..] == a[1..] + b;
      NonSpaceAppend(a[1..], b);
    } else {
      assert a + b == b;
    }
  }

  lemma NonSpaceOfWord(w: string)
    requires NoSpace(w)
    ensures NonSpace(w) == w
  {
  }

  /** No character is lost or invented: the tokens hold exactly the
      non-whitespace characters of the string, in order. */
  lemma {:induction false} ConcatSplit(s: string)
    ensures Concat(Split(s)) == NonSpace(s)
    decreases |s|
  {
    if s == [] {
    } else if IsSpace(s[0]) {
      ConcatSplit(s[1..]);
    } else {
      var w := Word(s);
      var rest := s[|w|..];
      WordIsMaximalPrefix(s);
      NonSpaceAppend(w, rest);
      NonSpaceOfWord(w);
      ConcatSplit(rest);
      assert Concat(Split(s)) == w + Concat(Split(rest));
    }
  }

  /** State of the scan after `i` characters: the tokens emitted so far and
      the pending token, together accounting for all of `Split(s)`. */
  predicate ScanInv(s: string, i: nat, ts: seq<string>, cur: string) {
    i <= |s| && NoSpace(cur) && ts + Split(cur + s[i..]) == Split(s)
  }

  /** One step of the scan: whitespace closes the pending token, any other
      character extends it. */
  function ScanStep(ts: seq<string>, cur: string, c: char): (seq<string>, string) {
    if IsSpace(c) then (if cur == [] then ts else ts + [cur], [])
    else (ts, cur + [c])
  }

  /** Whitespace after the pending token closes it. */
  lemma ScanAtSpace(cur: string, c: char, rest: string)
    requires NoSpace(cur) && IsSpace(c)
    ensures Split(cur + ([c] + rest)) == (if cur == [] then [] else [cur]) + Split(rest)
  {
    assert cur + ([c] + rest) == cur + [c] + rest;
    SplitAtSpace(cur, c, rest);
    if cur != [] {
      SplitWord(cur);
    }
  }

  lemma ScanSpaceKeepsInv(s: string, i: nat, ts: seq<string>, cur: string)
    requires i < |s| && IsSpace(s[i]) && ScanInv(s, i, ts, cur)
    ensures ScanInv(s, i + 1, if cur == [] then ts else ts + [cur], [])
  {
    var tail := s[i + 1..];
    assert s[i..] == [s[i]] + tail;
    ScanAtSpace(cur, s[i], tail);
    assert [] + tail == tail;
    if cur != [] {
      assert ts + ([cur] + Split(tail)) == (ts + [cur]) + Split(tail);
    }
  }

  lemma ScanCharKeepsInv(s: string, i: nat, ts: seq<string>, cur: string)
    requires i < |s| && !IsSpace(s[i]) && ScanInv(s, i, ts, cur)
    ensures ScanInv(s, i + 1, ts, cur + [s[i]])
  {
    assert (cur + [s[i]]) + s[i + 1..] == cur + s[i..];
  }

  lemma ScanStepKeepsInv(s: string, i: nat, ts: seq<string>, cur: string)
    requires i < |s| && ScanInv(s, i, ts, cur)
    ensures ScanInv(s, i + 1, ScanStep(ts, cur, s[i]).0, ScanStep(ts, cur, s[i]).1)
  {
    if IsSpace(s[i]) {
      ScanSpaceKeepsInv(s, i, ts, cur);
    } else {
      ScanCharKeepsInv(s, i, ts, cur);
    }
  }

  lemma ScanFinish(s: string, ts: seq<string>, cur: string)
    requires ScanInv(s, |s|, ts, cur)
    ensures (if cur == [] then ts else ts + [cur]) == Split(s)
  {
    assert cur + s[|s|..] == cur;
    if cur != [] {
      SplitWord(cur);
    }
  }

  /** The scanning loop by which `split()` is carried out: one pass, one
      pending token. It yields exactly the tokens of `Split`. */
  method SplitScan(s: string) returns (ts: seq<string>)
    ensures ts == Split(s)
  {
    ts := [];
    var cur: string := [];
    var i := 0;
    assert cur + s[i..] == s;
    while i < |s|
      invariant ScanInv(s, i, ts, cur)
    {
      ScanStepKeepsInv(s, i, ts, cur);
      ts, cur := ScanStep(ts, cur, s[i]).0, ScanStep(ts, cur, s[i]).1;
      i := i + 1;
    }
    ScanFinish(s, ts, cur);
    if cur != [] {
      ts := ts + [cur];
    }
  }
}
