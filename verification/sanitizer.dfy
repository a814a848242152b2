/** Tag removal for task titles and descriptions (task-service schemas). */
module Sanitizer {
  import opened Text
  import opened Wrappers

  /** What the pattern <[^>]*> substituted by "" leaves, scanning left to right. */
  function RemoveTags(s: string): string {
    if s == "" then ""
    else if s[0] == '<' && '>' in s then RemoveTags(s[Find('>', s) + 1..])
    else [s[0]] + RemoveTags(s[1..])
  }

  function StripHtml(value: Option<string>): Option<string> {
    match value
    case None => None
    case Some(s) => Some(Strip(RemoveTags(s)))
  }

  /** The title validator: length limits first, then tag removal, then non-emptiness. */
  function ValidateTitle(title: string): Option<string> {
    if !(1 <= |title| <= 500) then None
    else
      var cleaned := Strip(RemoveTags(title));
      if cleaned == "" then None else Some(cleaned)
  }

  /** The tag pattern matches somewhere in s. */
  ghost predicate HasTag(s: string) {
    exists i, j :: 0 <= i < j < |s| && s[i] == '<' && s[j] == '>'
  }

  /** t is s with the characters outside the increasing positions `kept` removed. */
  ghost predicate Keeps(s: string, t: string, kept: seq<nat>) {
    && |kept| == |t|
    && (forall i :: 0 <= i < |kept| ==> kept[i] < |s| && s[kept[i]] == t[i])
    && (forall i, j :: 0 <= i < j < |kept| ==> kept[i] < kept[j])
  }

  /** Positions kept in a suffix of s are positions kept in s. */
  lemma KeepsShift(s: string, skip: nat, t: string, rest: seq<nat>) returns (kept: seq<nat>)
    requires skip <= |s| && Keeps(s[skip..], t, rest)
    ensures Keeps(s, t, kept)
    ensures forall i :: 0 <= i < |kept| ==> kept[i] >= skip
  {
    kept := seq(|rest|, i requires 0 <= i < |rest| => rest[i] + skip);
  }

  lemma KeepsCons(s: string, t: string, rest: seq<nat>) returns (kept: seq<nat>)
    requires s != "" && Keeps(s[1..], t, rest)
    ensures Keeps(s, [s[0]] + t, kept)
  {
    var shifted := KeepsShift(s, 1, t, rest);
    kept := [0] + shifted;
  }

  lemma {:induction false} RemoveTagsKeeps(s: string) returns (kept: seq<nat>)
    ensures Keeps(s, RemoveTags(s), kept)
  {
    if s == "" {
      kept := [];
    } else if s[0] == '<' && '>' in s {
      var skip := Find('>', s) + 1;
      var rest := RemoveTagsKeeps(s[skip..]);
      kept := KeepsShift(s, skip, RemoveTags(s[skip..]), rest);
    } else {
      var rest := RemoveTagsKeeps(s[1..]);
      kept := KeepsCons(s, RemoveTags(s[1..]), rest);
    }
  }

  lemma KeepsPart(s: string, t: string, kept: seq<nat>, lo: nat, hi: nat)
    requires Keeps(s, t, kept) && lo <= hi <= |t|
    ensures Keeps(s, t[lo..hi], kept[lo..hi])
  {
  }

  lemma {:induction false} RemoveTagsClean(s: string)
    ensures !HasTag(RemoveTags(s))
  {
    if s != "" {
      if s[0] == '<' && '>' in s {
        RemoveTagsClean(s[Find('>', s) + 1..]);
      } else {
        RemoveTagsClean(s[1..]);
        var kept := RemoveTagsKeeps(s[1..]);
        var t := RemoveTags(s);
        assert forall j :: 1 <= j < |t| ==> t[j] == RemoveTags(s[1..])[j - 1];
        if s[0] == '<' {
          assert forall j :: 1 <= j < |t| ==> t[j] == s[1..][kept[j - 1]] && t[j] in s;
        }
      }
    }
  }

  lemma {:induction false} RemoveTagsFixed(s: string)
    requires !HasTag(s)
    ensures RemoveTags(s) == s
  {
    if s != "" {
      SubstringClean(s, 1, |s|);
      RemoveTagsFixed(s[1..]);
      assert [s[0]] + s[1..] == s;
      assert s[0] == '<' ==> forall j :: 0 < j < |s| ==> s[j] != '>';
    }
  }

  /** A stretch of a tag-free string is tag-free, and keeps the positions it came from. */
  lemma SubstringClean(s: string, lo: nat, hi: nat)
    requires lo <= hi <= |s| && !HasTag(s)
    ensures !HasTag(s[lo..hi])
  {
    var t := s[lo..hi];
    forall i, j | 0 <= i < j < |t|
      ensures !(t[i] == '<' && t[j] == '>')
    {
      assert t[i] == s[lo + i] && t[j] == s[lo + j];
    }
  }

  /** strip() takes a stretch out of the tag-free text. */
  lemma StripIsPart(t: string) returns (lo: nat, hi: nat)
    ensures lo <= hi <= |t| && Strip(t) == t[lo..hi] && Trimmed(Strip(t))
  {
    var left, right := StripSplits(t);
    lo, hi := |left|, |left| + |Strip(t)|;
    assert t == left + (Strip(t) + right);
  }

  /** Sanitised text has no tag, is trimmed, and is a subsequence of the input; no text stays no text. */
  lemma StripHtmlSound(value: Option<string>) returns (kept: seq<nat>)
    ensures value.None? ==> StripHtml(value) == None
    ensures value.Some? ==>
              && StripHtml(value).Some?
              && var out := StripHtml(value).value;
              !HasTag(out) && Trimmed(out) && Keeps(value.value, out, kept)
  {
    kept := [];
    if value.Some? {
      var s := value.value;
      RemoveTagsClean(s);
      var all := RemoveTagsKeeps(s);
      var lo, hi := StripIsPart(RemoveTags(s));
      SubstringClean(RemoveTags(s), lo, hi);
      KeepsPart(s, RemoveTags(s), all, lo, hi);
      kept := all[lo..hi];
    }
  }

  /** Sanitising twice is sanitising once. */
  lemma StripHtmlIdempotent(value: Option<string>)
    ensures StripHtml(StripHtml(value)) == StripHtml(value)
  {
    if value.Some? {
      var out := Strip(RemoveTags(value.value));
      var kept := StripHtmlSound(value);
      RemoveTagsFixed(out);
      StripTrimmed(out);
    }
  }

  /** What precedes the first '<' of a piece, or the whole piece. */
  function BeforeOpen(piece: string): string {
    if '<' in piece then piece[..Find('<', piece)] else piece
  }

  /** Reference definition: cut s after every '>'; from a piece holding '<' keep only what precedes it. */
  function BySegments(s: string): string {
    if '>' !in s then s
    else
      var end := Find('>', s) + 1;
      BeforeOpen(s[..end]) + BySegments(s[end..])
  }

  lemma BeforeOpenCons(c: char, t: string)
    requires c != '<'
    ensures BeforeOpen([c] + t) == [c] + BeforeOpen(t)
  {
    if '<' in t {
      var k := Find('<', t);
      assert ([c] + t)[..k + 1] == [c] + t[..k];
      FindIs('<', [c] + t, k + 1);
    }
  }

  lemma BySegmentsStep(piece: string, rest: string)
    requires '>' !in piece
    ensures BySegments(piece + ">" + rest) == BeforeOpen(piece + ">") + BySegments(rest)
  {
    var s := piece + ">" + rest;
    assert s[..|piece|] == piece && s[..|piece| + 1] == piece + ">" && s[|piece| + 1..] == rest;
    FindIs('>', s, |piece|);
  }

  lemma RemoveOrdinary(c: char, t: string)
    requires c != '<'
    ensures RemoveTags([c] + t) == [c] + RemoveTags(t)
  {
    assert ([c] + t)[1..] == t;
  }

  lemma RemoveOpen(piece: string, rest: string)
    requires '>' !in piece && piece != "" && piece[0] == '<'
    ensures RemoveTags(piece + ">" + rest) == RemoveTags(rest)
    ensures BeforeOpen(piece + ">") == ""
  {
    var s := piece + ">" + rest;
    assert s[|piece|] == '>' && s[|piece| + 1..] == rest && s[..|piece|] == piece;
    FindIs('>', s, |piece|);
    FindIs('<', piece + ">", 0);
  }

  lemma Regroup(a: string, b: string, c: string)
    ensures a + (b + c) == a + b + c
  {
  }

  lemma RemoveCons(c: char, whole: string, piece: string, rest: string)
    requires c != '<' && RemoveTags(whole) == BeforeOpen(piece) + RemoveTags(rest)
    ensures RemoveTags([c] + whole) == BeforeOpen([c] + piece) + RemoveTags(rest)
  {
    RemoveOrdinary(c, whole);
    BeforeOpenCons(c, piece);
    Regroup([c], BeforeOpen(piece), RemoveTags(rest));
  }

  /** Scanning one piece: from its first '<' on it is part of a tag, because a '>' ends it. */
  lemma {:induction false} RemovePiece(piece: string, rest: string)
    requires '>' !in piece
    ensures RemoveTags(piece + ">" + rest) == BeforeOpen(piece + ">") + RemoveTags(rest)
  {
    if piece == "" {
      RemoveOrdinary('>', rest);
      assert piece + ">" + rest == ['>'] + rest && piece + ">" == ['>'];
    } else if piece[0] == '<' {
      RemoveOpen(piece, rest);
    } else {
      var c, more := piece[0], piece[1..];
      RemovePiece(more, rest);
      RemoveCons(c, more + ">" + rest, more + ">", rest);
      assert piece + ">" == [c] + (more + ">") && piece + ">" + rest == [c] + (more + ">" + rest);
    }
  }

  lemma {:induction false} SegmentsAgree(s: string)
    ensures RemoveTags(s) == BySegments(s)
    decreases |s|
  {
    if '>' !in s {
      RemoveTagsFixed(s);
    } else {
      var k := Find('>', s);
      assert s == s[..k] + ">" + s[k + 1..];
      RemovePiece(s[..k], s[k + 1..]);
      BySegmentsStep(s[..k], s[k + 1..]);
      SegmentsAgree(s[k + 1..]);
    }
  }

  // The module text says '<' and '>' are removed entirely.

  /** A '<' survives the scan exactly when no '>' follows it. */
  lemma {:induction false} OpenBracketSurvives(s: string)
    ensures '<' in RemoveTags(s) <==> exists i :: 0 <= i < |s| && s[i] == '<' && '>' !in s[i..]
  {
    if s != "" {
      if s[0] == '<' && '>' in s {
        var skip := Find('>', s) + 1;
        OpenBracketSurvives(s[skip..]);
        forall i | 0 <= i < skip ensures '>' in s[i..] {
          assert s[i..][skip - 1 - i] == '>';
        }
        assert forall i :: skip <= i < |s| ==> s[i..] == s[skip..][i - skip..];
        assert forall i :: 0 <= i < |s| - skip ==> s[skip..][i..] == s[i + skip..];
      } else {
        OpenBracketSurvives(s[1..]);
        assert s[0..] == s;
        assert forall i :: 1 <= i < |s| ==> s[i..] == s[1..][i - 1..];
        assert forall i :: 0 <= i < |s| - 1 ==> s[1..][i..] == s[i + 1..];
      }
    }
  }

  /** Cutting s after every '>', some piece that a '>' ends holds no '<'. */
  predicate BarePiece(s: string)
    decreases |s|
  {
    '>' in s && ('<' !in s[..Find('>', s)] || BarePiece(s[Find('>', s) + 1..]))
  }

  lemma BeforeOpenHolds(piece: string)
    requires '>' !in piece
    ensures '>' in BeforeOpen(piece + ">") <==> '<' !in piece
  {
    var whole := piece + ">";
    assert whole[|piece|] == '>';
    if '<' in piece {
      assert '<' in whole;
      var k := Find('<', whole);
      assert forall i :: 0 <= i < k ==> BeforeOpen(whole)[i] == piece[i];
    }
  }

  lemma InConcat(a: string, b: string, c: char)
    ensures c in a + b <==> c in a || c in b
  {
  }

  lemma BarePieceStep(piece: string, rest: string)
    requires '>' !in piece
    ensures BarePiece(piece + ">" + rest) <==> '<' !in piece || BarePiece(rest)
  {
    var s := piece + ">" + rest;
    assert s[..|piece|] == piece && s[|piece| + 1..] == rest;
    FindIs('>', s, |piece|);
  }

  lemma CloseStep(piece: string, rest: string)
    requires '>' !in piece
    requires '>' in BySegments(rest) <==> BarePiece(rest)
    ensures '>' in BySegments(piece + ">" + rest) <==> BarePiece(piece + ">" + rest)
  {
    BySegmentsStep(piece, rest);
    BarePieceStep(piece, rest);
    BeforeOpenHolds(piece);
    InConcat(BeforeOpen(piece + ">"), BySegments(rest), '>');
  }

  lemma CutAtClose(s: string) returns (piece: string, rest: string)
    requires '>' in s
    ensures s == piece + ">" + rest && '>' !in piece
  {
    var k := Find('>', s);
    piece, rest := s[..k], s[k + 1..];
  }

  lemma {:induction false} SegmentsClose(s: string)
    ensures '>' in BySegments(s) <==> BarePiece(s)
    decreases |s|
  {
    if '>' in s {
      var piece, rest := CutAtClose(s);
      SegmentsClose(rest);
      CloseStep(piece, rest);
    }
  }

  /** A '>' survives the scan exactly when some piece it ends has no '<' to open a tag with. */
  lemma CloseBracketSurvives(s: string)
    ensures '>' in RemoveTags(s) <==> BarePiece(s)
  {
    SegmentsAgree(s);
    SegmentsClose(s);
  }

  /** Trimming removes no bracket. */
  lemma StripKeepsInk(t: string, c: char)
    requires !IsSpace(c)
    ensures c in Strip(t) <==> c in t
  {
    var left, right := StripSplits(t);
    assert c !in left && c !in right;
  }

  /** What is stored is the reference definition, trimmed. */
  lemma StripHtmlBySegments(s: string)
    ensures StripHtml(Some(s)) == Some(Strip(BySegments(s)))
  {
    SegmentsAgree(s);
  }

  /** So for what is stored, the promise has an exact condition for either bracket. */
  lemma BracketsSurvive(s: string)
    ensures StripHtml(Some(s)).Some?
    ensures '<' in StripHtml(Some(s)).value <==> exists i :: 0 <= i < |s| && s[i] == '<' && '>' !in s[i..]
    ensures '>' in StripHtml(Some(s)).value <==> BarePiece(s)
  {
    OpenBracketSurvives(s);
    CloseBracketSurvives(s);
    StripKeepsInk(RemoveTags(s), '<');
    StripKeepsInk(RemoveTags(s), '>');
  }

  /** Text without a tag only loses its outer whitespace. */
  lemma StripHtmlPlain(s: string)
    requires !HasTag(s)
    ensures StripHtml(Some(s)) == Some(Strip(s))
  {
    RemoveTagsFixed(s);
  }

  /** Titles whose brackets stay. */
  lemma LoneOpenKept()
    ensures ValidateTitle("a < b") == Some("a < b")
  {
    StripHtmlPlain("a < b");
    StripTrimmed("a < b");
  }

  lemma LoneCloseKept()
    ensures ValidateTitle("a > b") == Some("a > b")
  {
    StripHtmlPlain("a > b");
    StripTrimmed("a > b");
  }

  /** A title is accepted exactly when it has 1 to 500 characters and something but blanks is left of it. */
  lemma TitleAccepted(title: string)
    ensures ValidateTitle(title)
         == if 1 <= |title| <= 500 && Strip(BySegments(title)) != "" then Some(Strip(BySegments(title))) else None
  {
    SegmentsAgree(title);
  }

  /** An accepted title is non-empty, within bounds, tag-free and trimmed; sending it back changes nothing. */
  lemma TitleStable(title: string)
    requires ValidateTitle(title).Some?
    ensures var t := ValidateTitle(title).value;
            1 <= |t| <= 500 && !HasTag(t) && Trimmed(t) && ValidateTitle(t) == Some(t)
  {
    var kept := StripHtmlSound(Some(title));
    StripHtmlIdempotent(Some(title));
    IncreasingBounded(kept, |title|);
  }

  lemma {:induction false} IncreasingBounded(xs: seq<nat>, bound: nat)
    requires forall i :: 0 <= i < |xs| ==> xs[i] < bound
    requires forall i, j :: 0 <= i < j < |xs| ==> xs[i] < xs[j]
    ensures |xs| <= bound
  {
    if xs != [] {
      IncreasingBounded(xs[..|xs| - 1], xs[|xs| - 1]);
    }
  }
}
