/** The Python string operations the services use: strip, split, join and find. */
module Text {

  /** The characters str.strip() removes. */
  predicate IsSpace(c: char) {
    || '\U{9}' <= c <= '\U{D}'
    || '\U{1C}' <= c <= '\U{20}'
    || c in {'\U{85}', '\U{A0}', '\U{1680}', '\U{2028}', '\U{2029}', '\U{202F}', '\U{205F}', '\U{3000}'}
    || '\U{2000}' <= c <= '\U{200A}'
  }

  predicate AllSpace(s: string) {
    forall i :: 0 <= i < |s| ==> IsSpace(s[i])
  }

  /** No whitespace at either end. */
  predicate Trimmed(s: string) {
    s == "" || (!IsSpace(s[0]) && !IsSpace(s[|s| - 1]))
  }

  function LStrip(s: string): string {
    if s != "" && IsSpace(s[0]) then LStrip(s[1..]) else s
  }

  function RStrip(s: string): string {
    if s != "" && IsSpace(s[|s| - 1]) then RStrip(s[..|s| - 1]) else s
  }

  function Strip(s: string): string {
    RStrip(LStrip(s))
  }

  lemma {:induction false} LStripPads(pad: string, s: string)
    requires AllSpace(pad)
    requires s == "" || !IsSpace(s[0])
    ensures LStrip(pad + s) == s
  {
    if pad == "" {
      assert pad + s == s;
    } else {
      assert (pad + s)[1..] == pad[1..] + s;
      LStripPads(pad[1..], s);
    }
  }

  lemma {:induction false} RStripPads(s: string, pad: string)
    requires AllSpace(pad)
    requires s == "" || !IsSpace(s[|s| - 1])
    ensures RStrip(s + pad) == s
  {
    if pad == "" {
      assert s + pad == s;
    } else {
      assert (s + pad)[..|s + pad| - 1] == s + pad[..|pad| - 1];
      RStripPads(s, pad[..|pad| - 1]);
    }
  }

  /** strip() removes exactly the outer whitespace. */
  lemma StripPads(left: string, s: string, right: string)
    requires AllSpace(left) && AllSpace(right) && Trimmed(s)
    ensures Strip(left + s + right) == s
  {
    if s == "" {
      assert left + s + right == (left + right) + s;
      LStripPads(left + right, s);
    } else {
      assert left + s + right == left + (s + right);
      LStripPads(left, s + right);
      RStripPads(s, right);
    }
  }

  /** Every string is its stripped form between two runs of whitespace. */
  lemma StripSplits(s: string) returns (left: string, right: string)
    ensures s == left + Strip(s) + right
    ensures AllSpace(left) && AllSpace(right) && Trimmed(Strip(s))
  {
    left := LStripSplits(s);
    right := RStripSplits(LStrip(s));
    assert Strip(s) + right == LStrip(s);
    assert s == left + (Strip(s) + right);
  }

  lemma {:induction false} LStripSplits(s: string) returns (left: string)
    ensures s == left + LStrip(s)
    ensures AllSpace(left)
    ensures LStrip(s) == "" || !IsSpace(LStrip(s)[0])
  {
    left := "";
    if s != "" && IsSpace(s[0]) {
      var rest := LStripSplits(s[1..]);
      left := [s[0]] + rest;
    }
  }

  lemma {:induction false} RStripSplits(s: string) returns (right: string)
    ensures s == RStrip(s) + right
    ensures AllSpace(right)
    ensures RStrip(s) == "" || !IsSpace(RStrip(s)[|RStrip(s)| - 1])
    ensures RStrip(s) != "" ==> RStrip(s)[0] == s[0]
  {
    right := "";
    if s != "" && IsSpace(s[|s| - 1]) {
      var rest := RStripSplits(s[..|s| - 1]);
      right := rest + [s[|s| - 1]];
    }
  }

  lemma StripTrimmed(s: string)
    requires Trimmed(s)
    ensures Strip(s) == s
  {
    StripPads("", s, "");
    assert "" + s + "" == s;
  }

  /** Position of the first c in s. */
  function Find(c: char, s: string): (i: nat)
    requires c in s
    ensures i < |s| && s[i] == c && c !in s[..i]
  {
    if s[0] == c then 0
    else
      var i := 1 + Find(c, s[1..]);
      assert s[..i] == [s[0]] + s[1..][..i - 1];
      i
  }

  lemma FindIs(c: char, s: string, i: nat)
    requires i < |s| && s[i] == c && c !in s[..i]
    ensures c in s && Find(c, s) == i
  {
    var f := Find(c, s);
    assert forall k :: 0 <= k < i ==> s[k] in s[..i];
    assert forall k :: 0 <= k < f ==> s[k] in s[..f];
  }

  function Split(s: string, sep: char): (parts: seq<string>)
    ensures |parts| >= 1
    ensures forall i :: 0 <= i < |parts| ==> sep !in parts[i]
  {
    if s == "" then [""]
    else
      var rest := Split(s[1..], sep);
      if s[0] == sep then [""] + rest else [[s[0]] + rest[0]] + rest[1..]
  }

  function Join(parts: seq<string>, sep: char): string
    requires |parts| >= 1
  {
    if |parts| == 1 then parts[0] else parts[0] + [sep] + Join(parts[1..], sep)
  }

  lemma {:induction false} SplitPrefix(head: string, sep: char, rest: string)
    requires sep !in head
    ensures Split(head, sep) == [head]
    ensures Split(head + [sep] + rest, sep) == [head] + Split(rest, sep)
  {
    var s := head + [sep] + rest;
    if head == "" {
      assert s[1..] == rest;
    } else {
      assert s[1..] == head[1..] + [sep] + rest;
      SplitPrefix(head[1..], sep, rest);
      assert [head[0]] + head[1..] == head;
    }
  }

  /** split undoes join when no part contains the separator. */
  lemma {:induction false} SplitJoin(parts: seq<string>, sep: char)
    requires |parts| >= 1
    requires forall i :: 0 <= i < |parts| ==> sep !in parts[i]
    ensures Split(Join(parts, sep), sep) == parts
  {
    if |parts| == 1 {
      SplitPrefix(parts[0], sep, "");
    } else {
      SplitPrefix(parts[0], sep, Join(parts[1..], sep));
      SplitJoin(parts[1..], sep);
    }
  }
}
