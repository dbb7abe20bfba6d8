/** The chat-message markup of the learning screen: a message is split with
    the JavaScript call `text.split(/(\*\*.*?\*\*)/g)` and every part that
    starts and ends with "**" is shown in bold without those delimiters. */
module Markup {
  import opened Types
  import opened Text

  /** The code units the regular-expression `.` does not match. */
  predicate IsLineTerminator(c: char)
  {
    c == '\n' || c == '\r' || c == '\U{2028}' || c == '\U{2029}'
  }

  /** A "**" delimiter starts at index `k` of `s`: the occurrence
      `OccursAt(s, "**", k)` written unit by unit, as `StarPairIsOccurrence`
      proves. */
  predicate StarPairAt(s: string, k: nat)
  {
    k + 1 < |s| && s[k] == '*' && s[k + 1] == '*'
  }

  lemma StarPairIsOccurrence(s: string, k: nat)
    ensures StarPairAt(s, k) <==> OccursAt(s, "**", k)
  {
    if k + 2 <= |s| {
      assert s[k..k + 2] == [s[k], s[k + 1]];
    }
  }

  /** The lazy tail `.*?\*\*` tried from index `k`: `.` gives up one unit at a
      time, so the match closes at the first "**" at or after `k`, and fails
      when a line terminator or the end of the text comes first. Gives the
      index of the closing "**". */
  function FindClose(s: string, k: nat): (r: Option<nat>)
    ensures r.Some? ==> k <= r.value && r.value + 2 <= |s| && StarPairAt(s, r.value)
    decreases |s| - k
  {
    if k + 1 >= |s| then None
    else if StarPairAt(s, k) then Some(k)
    else if IsLineTerminator(s[k]) then None
    else FindClose(s, k + 1)
  }

  /** The whole pattern `\*\*.*?\*\*` tried at index `p` only (the position
      the splitter is at); gives the index just past the match. */
  function MatchAt(s: string, p: nat): (r: Option<nat>)
    ensures r.Some? ==> p + 4 <= r.value <= |s| && StarPairAt(s, p) && StarPairAt(s, r.value - 2)
    ensures !StarPairAt(s, p) ==> r.None?
  {
    if StarPairAt(s, p) then
      match FindClose(s, p + 2)
      case Some(k) => Some(k + 2)
      case None => None
    else None
  }

  /** A text that the pattern matches as a whole: "**", then units none of
      which is a line terminator and among which "**" first appears as the
      closing delimiter. */
  predicate LazyBold(t: string)
  {
    && |t| >= 4
    && StarPairAt(t, 0)
    && StarPairAt(t, |t| - 2)
    && forall j :: 2 <= j < |t| - 2 ==> !StarPairAt(t, j) && !IsLineTerminator(t[j])
  }

  /** No stretch of `t` is a complete match of the pattern. */
  predicate NoBoldInside(t: string)
  {
    forall i, k :: 0 <= i <= k <= |t| ==> !LazyBold(t[i..k])
  }

  /** The pattern matches at no position from `lo` up to `hi`. */
  predicate NoMatchIn(s: string, lo: nat, hi: nat)
  {
    forall j :: lo <= j < hi ==> MatchAt(s, j).None?
  }

  /** The splitting loop of `String.prototype.split` for a regular
      expression: `q` starts the pending plain segment, `p` is the position
      tried next. Each match contributes the plain text before it and then
      its captured group, which is the whole match; the text after the last
      match closes the list. */
  function SplitFrom(s: string, q: nat, p: nat): seq<string>
    requires q <= p <= |s|
    decreases |s| - p
  {
    if p == |s| then [s[q..]]
    else
      match MatchAt(s, p)
      case Some(e) => [s[q..p], s[p..e]] + SplitFrom(s, e, e)
      case None => SplitFrom(s, q, p + 1)
  }

  /** `text.split(/(\*\*.*?\*\*)/g)`. Splitting keeps the delimiters, so
      joining the parts gives back the message exactly; plain and captured
      parts alternate, with a plain part first and last. */
  function Split(text: string): (r: seq<string>)
    ensures Concat(r) == text
    ensures |r| % 2 == 1
  {
    SplitFromFacts(text, 0, 0);
    SplitFrom(text, 0, 0)
  }

  /** The concatenation of a list of strings. */
  function Concat(parts: seq<string>): string
  {
    if parts == [] then [] else parts[0] + Concat(parts[1..])
  }

  /** What the message bubble shows for one part. */
  datatype Segment = Plain(text: string) | Bold(text: string)

  /** `part.slice(2, -2)`: both bounds clamp, so a part shorter than four
      units slices to the empty text. */
  function SliceInner(t: string): (r: string)
    ensures |t| >= 4 ==> t == t[..2] + r + t[|t| - 2..]
    ensures |t| < 4 ==> r == []
  {
    if |t| >= 4 then t[2..|t| - 2] else []
  }

  /** A part is shown in bold when it starts with "**" and ends with "**"
      (the two may overlap), and then without its first and last two units. */
  function Render(part: string): (r: Segment)
    ensures r.Bold? <==> |part| >= 2 && StarPairAt(part, 0) && StarPairAt(part, |part| - 2)
    ensures r.Bold? && |part| >= 4 ==> part == "**" + r.text + "**"
    ensures r.Bold? && |part| < 4 ==> r.text == []
    ensures r.Plain? ==> r.text == part
  {
    if |part| >= 2 && part[..2] == "**" && part[|part| - 2..] == "**" then Bold(SliceInner(part))
    else Plain(part)
  }

  /** `parseMessage`: split, then render every part in order. */
  function ParseMessage(text: string): (r: seq<Segment>)
    ensures |r| == |Split(text)|
    ensures forall i :: 0 <= i < |r| && r[i].Plain? ==> r[i].text == Split(text)[i]
    ensures forall i :: 0 <= i < |r| && r[i].Bold? ==>
              if |Split(text)[i]| >= 4 then Split(text)[i] == "**" + r[i].text + "**" else r[i].text == []
    ensures forall i :: 0 <= i < |r| ==>
              (r[i].Bold? <==> |Split(text)[i]| >= 2 && StarPairAt(Split(text)[i], 0)
                               && StarPairAt(Split(text)[i], |Split(text)[i]| - 2))
    ensures forall i :: 0 <= i < |r| && i % 2 == 1 ==> r[i].Bold?
  {
    CapturedPartsAreBold(text);
    var parts := Split(text);
    seq(|parts|, i requires 0 <= i < |parts| => Render(parts[i]))
  }

  // Proofs

  /** FindClose finds exactly the first "**" at or after `k` that no line
      terminator precedes. */
  lemma {:induction false} FindCloseIsFirstPair(s: string, k: nat, c: nat)
    ensures FindClose(s, k) == Some(c) <==>
            (k <= c && StarPairAt(s, c) &&
             forall j :: k <= j < c ==> !StarPairAt(s, j) && !IsLineTerminator(s[j]))
    decreases |s| - k
  {
    if k + 1 < |s| && !StarPairAt(s, k) && !IsLineTerminator(s[k]) {
      FindCloseIsFirstPair(s, k + 1, c);
    }
  }

  /** Delimiters and units of a slice are those of the text at shifted indices. */
  lemma SliceAt(s: string, p: nat, e: nat, j: nat)
    requires p <= e <= |s| && p + j + 1 < e
    ensures StarPairAt(s[p..e], j) <==> StarPairAt(s, p + j)
    ensures s[p..e][j] == s[p + j]
  {
  }

  /** The pattern matches at `p` and ends at `e` exactly when the text
      between `p` and `e` is a complete lazy bold span. */
  lemma MatchAtIsLazyBold(s: string, p: nat, e: nat)
    ensures MatchAt(s, p) == Some(e) <==> p + 4 <= e <= |s| && LazyBold(s[p..e])
  {
    if p + 4 <= e <= |s| {
      var t := s[p..e];
      forall j | 0 <= j && p + j + 1 < e
        ensures StarPairAt(t, j) <==> StarPairAt(s, p + j)
        ensures t[j] == s[p + j]
      {
        SliceAt(s, p, e, j);
      }
      FindCloseIsFirstPair(s, p + 2, e - 2);
      if LazyBold(t) {
        assert StarPairAt(s, p) && StarPairAt(s, e - 2);
        forall j | p + 2 <= j < e - 2 ensures !StarPairAt(s, j) && !IsLineTerminator(s[j]) {
          assert !StarPairAt(t, j - p) && !IsLineTerminator(t[j - p]);
        }
      }
      if MatchAt(s, p) == Some(e) {
        assert StarPairAt(t, 0);
        assert StarPairAt(t, |t| - 2);
      }
    } else if MatchAt(s, p) == Some(e) {
      assert false;
    }
  }

  /** A stretch of the text at none of whose positions the pattern matches
      contains no complete bold span. */
  lemma PlainSegmentHasNoBold(s: string, q: nat, p: nat)
    requires q <= p <= |s|
    requires NoMatchIn(s, q, p)
    ensures NoBoldInside(s[q..p])
  {
    forall i, k | 0 <= i <= k <= p - q ensures !LazyBold(s[q..p][i..k]) {
      forall m | 0 <= m < k - i ensures s[q..p][i..k][m] == s[q + i..q + k][m] {
      }
      assert s[q..p][i..k] == s[q + i..q + k];
      if LazyBold(s[q + i..q + k]) {
        MatchAtIsLazyBold(s, q + i, q + k);
      }
    }
  }

  lemma ConcatTwoMore(a: string, b: string, rest: seq<string>)
    ensures Concat([a, b] + rest) == a + b + Concat(rest)
  {
    assert ([a, b] + rest)[1..] == [b] + rest;
    assert ([b] + rest)[1..] == rest;
  }

  /** Where part `i` of a list of parts starts, relative to the start of
      their concatenation: the total length of the parts before it. */
  function PartStart(parts: seq<string>, i: nat): nat
    requires i <= |parts|
  {
    if i == 0 then 0 else PartStart(parts, i - 1) + |parts[i - 1]|
  }

  /** The two parts a match contributes shift every later part by their
      length. */
  lemma {:induction false} PartStartShift(a: string, b: string, rest: seq<string>, i: nat)
    requires 2 <= i <= |rest| + 2
    ensures PartStart([a, b] + rest, i) == |a| + |b| + PartStart(rest, i - 2)
  {
    if i > 2 {
      PartStartShift(a, b, rest, i - 1);
      assert ([a, b] + rest)[i - 1] == rest[i - 3];
    } else {
      assert PartStart([a, b] + rest, 1) == |a|;
    }
  }

  /** Part `i` of parts laid out from index `q` of `s` sits where the
      splitting loop puts it: a captured (odd) part is the match the pattern
      finds where that part starts, and the pattern matches nowhere inside a
      plain (even) part. */
  predicate LeftmostPart(s: string, q: nat, parts: seq<string>, i: nat)
    requires i < |parts|
  {
    var o := q + PartStart(parts, i);
    if i % 2 == 1 then MatchAt(s, o) == Some(o + |parts[i]|)
    else NoMatchIn(s, o, o + |parts[i]|)
  }

  /** Every part sits where the splitting loop puts it, so every match is the
      leftmost one left. */
  predicate LeftmostParts(s: string, q: nat, parts: seq<string>)
  {
    forall i :: 0 <= i < |parts| ==> LeftmostPart(s, q, parts, i)
  }

  /** A match at `p` after a stretch without one puts two parts in front of
      the parts laid out from the end of the match. */
  lemma LeftmostStep(s: string, q: nat, p: nat, e: nat, rest: seq<string>)
    requires q <= p && NoMatchIn(s, q, p) && MatchAt(s, p) == Some(e)
    requires LeftmostParts(s, e, rest)
    ensures LeftmostParts(s, q, [s[q..p], s[p..e]] + rest)
  {
    var parts := [s[q..p], s[p..e]] + rest;
    assert LeftmostPart(s, q, parts, 0);
    assert LeftmostPart(s, q, parts, 1) by {
      assert PartStart(parts, 1) == p - q;
    }
    forall i | 2 <= i < |parts| ensures LeftmostPart(s, q, parts, i) {
      LeftmostShift(s, q, p, e, rest, i);
    }
  }

  /** A later part keeps its place, shifted by the two parts in front. */
  lemma LeftmostShift(s: string, q: nat, p: nat, e: nat, rest: seq<string>, i: nat)
    requires q <= p <= e <= |s| && 2 <= i < |rest| + 2
    requires LeftmostPart(s, e, rest, i - 2)
    ensures LeftmostPart(s, q, [s[q..p], s[p..e]] + rest, i)
  {
    var parts := [s[q..p], s[p..e]] + rest;
    PartStartShift(s[q..p], s[p..e], rest, i);
    assert parts[i] == rest[i - 2];
    assert q + PartStart(parts, i) == e + PartStart(rest, i - 2);
  }

  /** The splitting loop at a match: the plain text before it, the match,
      and the parts laid out from its end. */
  lemma SplitFromAtMatch(s: string, q: nat, p: nat, e: nat)
    requires q <= p < |s| && MatchAt(s, p) == Some(e)
    requires Concat(SplitFrom(s, e, e)) == s[e..]
    ensures SplitFrom(s, q, p) == [s[q..p], s[p..e]] + SplitFrom(s, e, e)
    ensures Concat(SplitFrom(s, q, p)) == s[q..]
  {
    var rest := SplitFrom(s, e, e);
    assert SplitFrom(s, q, p) == [s[q..p], s[p..e]] + rest;
    ConcatTwoMore(s[q..p], s[p..e], rest);
    calc {
      Concat(SplitFrom(s, q, p));
      s[q..p] + s[p..e] + Concat(rest);
      s[q..p] + s[p..e] + s[e..];
      { assert s[q..p] + s[p..e] == s[q..e]; }
      s[q..];
    }
  }

  /** At the end of the text the splitting loop closes the list with the
      pending plain text. */
  lemma SplitFromAtEnd(s: string, q: nat)
    requires q <= |s| && NoMatchIn(s, q, |s|)
    ensures SplitFrom(s, q, |s|) == [s[q..]]
    ensures Concat(SplitFrom(s, q, |s|)) == s[q..]
    ensures LeftmostParts(s, q, SplitFrom(s, q, |s|))
  {
    assert Concat([s[q..]]) == s[q..] + Concat([]);
    assert [s[q..]][..0] == [];
    assert LeftmostPart(s, q, [s[q..]], 0);
  }

  /** Where the pattern does not match, the splitting loop moves on by one
      position and the pending plain text grows. */
  lemma SplitFromPastNoMatch(s: string, q: nat, p: nat)
    requires q <= p < |s| && NoMatchIn(s, q, p) && MatchAt(s, p).None?
    ensures SplitFrom(s, q, p) == SplitFrom(s, q, p + 1)
    ensures NoMatchIn(s, q, p + 1)
  {
  }

  /** The facts about the splitting loop, proved along its recursion: the
      parts join back to the rest of the text, their number is odd, and they
      are laid out leftmost match first. */
  lemma {:induction false} SplitFromFacts(s: string, q: nat, p: nat)
    requires q <= p <= |s|
    requires NoMatchIn(s, q, p)
    ensures Concat(SplitFrom(s, q, p)) == s[q..]
    ensures |SplitFrom(s, q, p)| % 2 == 1
    ensures LeftmostParts(s, q, SplitFrom(s, q, p))
    decreases |s| - p
  {
    if p == |s| {
      SplitFromAtEnd(s, q);
    } else {
      var m := MatchAt(s, p);
      if m.Some? {
        var e := m.value;
        SplitFromFacts(s, e, e);
        SplitFromAtMatch(s, q, p, e);
        LeftmostStep(s, q, p, e, SplitFrom(s, e, e));
      } else {
        SplitFromPastNoMatch(s, q, p);
        SplitFromFacts(s, q, p + 1);
      }
    }
  }

  /** Every captured part starts and ends with "**". */
  lemma CapturedPartsAreBold(text: string)
    ensures forall i :: 0 <= i < |Split(text)| && i % 2 == 1 ==> Render(Split(text)[i]).Bold?
  {
    forall i | 0 <= i < |Split(text)| && i % 2 == 1 ensures Render(Split(text)[i]).Bold? {
      SplitCaptured(text, i);
    }
  }

  /** Part `i` of the split of `text` is the text at its start position and
      sits where the splitting loop puts it. */
  lemma SplitPart(text: string, i: nat)
    requires i < |Split(text)|
    ensures PartStart(Split(text), i) + |Split(text)[i]| <= |text|
    ensures text[PartStart(Split(text), i)..PartStart(Split(text), i) + |Split(text)[i]|] == Split(text)[i]
    ensures LeftmostPart(text, 0, Split(text), i)
  {
    var parts := Split(text);
    assert parts == SplitFrom(text, 0, 0);
    SplitFromFacts(text, 0, 0);
    assert LeftmostPart(text, 0, parts, i);
    PartAt(parts, i);
  }

  /** The parts alternate plain text (even positions) and captured matches
      (odd positions). A captured part is a complete lazy match, and it is the
      match the pattern finds where that part starts in the message. */
  lemma SplitCaptured(text: string, i: nat)
    requires i < |Split(text)| && i % 2 == 1
    ensures LazyBold(Split(text)[i])
    ensures MatchAt(text, PartStart(Split(text), i)) == Some(PartStart(Split(text), i) + |Split(text)[i]|)
  {
    var part, o := Split(text)[i], PartStart(Split(text), i);
    SplitPart(text, i);
    MatchAtIsLazyBold(text, o, o + |part|);
  }

  /** The pattern matches at no position inside a plain part, so no match is
      skipped and none is taken later than the leftmost; a plain part holds
      no bold span. */
  lemma SplitPlain(text: string, i: nat)
    requires i < |Split(text)| && i % 2 == 0
    ensures NoBoldInside(Split(text)[i])
    ensures NoMatchIn(text, PartStart(Split(text), i), PartStart(Split(text), i) + |Split(text)[i]|)
  {
    var part, o := Split(text)[i], PartStart(Split(text), i);
    SplitPart(text, i);
    PlainSegmentHasNoBold(text, o, o + |part|);
  }

  /** Joining two lists of parts joins their concatenations. */
  lemma {:induction false} ConcatAppend(a: seq<string>, b: seq<string>)
    ensures Concat(a + b) == Concat(a) + Concat(b)
  {
    if a != [] {
      ConcatAppend(a[1..], b);
      assert (a + b)[1..] == a[1..] + b;
    } else {
      assert a + b == b;
    }
  }

  /** Part `i` starts where the concatenation of the parts before it ends. */
  lemma {:induction false} PartStartIsPrefixLength(parts: seq<string>, i: nat)
    requires i <= |parts|
    ensures PartStart(parts, i) == |Concat(parts[..i])|
  {
    if i > 0 {
      PartStartIsPrefixLength(parts, i - 1);
      assert parts[..i] == parts[..i - 1] + [parts[i - 1]];
      ConcatAppend(parts[..i - 1], [parts[i - 1]]);
      assert Concat([parts[i - 1]]) == parts[i - 1] + Concat([]);
    } else {
      assert parts[..0] == [];
    }
  }

  /** The parts before part `i`, part `i` itself, and the parts after it. */
  lemma ConcatAround(parts: seq<string>, i: nat)
    requires i < |parts|
    ensures Concat(parts) == Concat(parts[..i]) + (parts[i] + Concat(parts[i + 1..]))
  {
    var pre, post := parts[..i], parts[i + 1..];
    var tail := [parts[i]] + post;
    assert tail[0] == parts[i] && tail[1..] == post;
    assert Concat(tail) == parts[i] + Concat(post);
    assert parts == pre + tail;
    ConcatAppend(pre, tail);
  }

  /** Part `i` stands in the concatenation at its start position. */
  lemma PartAt(parts: seq<string>, i: nat)
    requires i < |parts|
    ensures PartStart(parts, i) + |parts[i]| <= |Concat(parts)|
    ensures Concat(parts)[PartStart(parts, i)..PartStart(parts, i) + |parts[i]|] == parts[i]
  {
    PartStartIsPrefixLength(parts, i);
    ConcatAround(parts, i);
    var x, y, z := Concat(parts[..i]), parts[i], Concat(parts[i + 1..]);
    assert (x + (y + z))[|x|..|x| + |y|] == y;
  }

  /** A text without line terminators. */
  predicate SingleLine(t: string)
  {
    forall j :: 0 <= j < |t| ==> !IsLineTerminator(t[j])
  }

  /** Every captured part is shown in bold as the text between its
      delimiters, and that text holds no "**" and no line terminator. */
  lemma CapturedPartsRenderBold(text: string, i: nat)
    requires i < |Split(text)| && i % 2 == 1
    ensures |Split(text)[i]| >= 4
    ensures var part := Split(text)[i];
            var inner := part[2..|part| - 2];
            && ParseMessage(text)[i] == Bold(inner)
            && part == "**" + inner + "**"
            && SingleLine(inner)
            && !Contains(inner, "**")
  {
    SplitCaptured(text, i);
    var part := Split(text)[i];
    var inner := part[2..|part| - 2];
    assert part[..2] == "**" && part[|part| - 2..] == "**";
    assert part == part[..2] + inner + part[|part| - 2..];
    forall j | 0 <= j < |inner| ensures !IsLineTerminator(inner[j]) && !OccursAt(inner, "**", j) {
      assert inner[j] == part[j + 2];
      assert !StarPairAt(part, j + 2);
      if j + 1 < |inner| {
        assert inner[j + 1] == part[j + 3];
      }
      StarPairIsOccurrence(inner, j);
    }
    StarPairIsOccurrence(inner, |inner|);
  }

  /** A plain part is shown in bold only when it is "**" or "***" (shown as
      the empty text) or a line terminator stands between its delimiters. */
  lemma PlainPartsRenderBoldOnlyAcrossLines(text: string, i: nat)
    requires i < |Split(text)| && i % 2 == 0
    requires ParseMessage(text)[i].Bold?
    ensures var part := Split(text)[i];
            |part| < 4 || exists j :: 2 <= j < |part| - 2 && IsLineTerminator(part[j])
  {
    SplitPlain(text, i);
    var part := Split(text)[i];
    if |part| >= 4 && forall j :: 2 <= j < |part| - 2 ==> !IsLineTerminator(part[j]) {
      assert StarPairAt(part, 0) && StarPairAt(part, |part| - 2);
      FirstPairBold(part, 2);
      assert false;
    }
  }

  /** In a text that opens with "**" and has "**" again at its end, with no
      line terminator in between, the prefix that closes at the first "**"
      from `k` on is a complete bold span. */
  lemma {:induction false} FirstPairBold(t: string, k: nat)
    requires |t| >= 4 && 2 <= k <= |t| - 2 && StarPairAt(t, 0) && StarPairAt(t, |t| - 2)
    requires forall j :: 2 <= j < |t| - 2 ==> !IsLineTerminator(t[j])
    requires forall j :: 2 <= j < k ==> !StarPairAt(t, j)
    ensures !NoBoldInside(t)
    decreases |t| - k
  {
    if StarPairAt(t, k) {
      var b := t[0..k + 2];
      forall j | 0 <= j && j + 1 < k + 2 ensures StarPairAt(b, j) <==> StarPairAt(t, j) {
      }
      assert LazyBold(b);
    } else {
      FirstPairBold(t, k + 1);
    }
  }

  /** How a sentence with one bold span is split. */
  lemma SplitExample()
    ensures Split("Try **this**.") == ["Try ", "**this**", "."]
  {
    var s := "Try **this**.";
    assert MatchAt(s, 0) == None && MatchAt(s, 1) == None && MatchAt(s, 2) == None && MatchAt(s, 3) == None;
    assert StarPairAt(s, 10);
    assert FindClose(s, 6) == Some(10);
    assert MatchAt(s, 4) == Some(12);
    assert SplitFrom(s, 12, 13) == ["."];
    assert SplitFrom(s, 12, 12) == ["."];
    assert s[0..4] == "Try " && s[4..12] == "**this**";
    assert SplitFrom(s, 0, 4) == ["Try ", "**this**", "."];
    assert SplitFrom(s, 0, 3) == SplitFrom(s, 0, 4);
    assert SplitFrom(s, 0, 2) == SplitFrom(s, 0, 3);
    assert SplitFrom(s, 0, 1) == SplitFrom(s, 0, 2);
  }

  /** The leftmost match wins: in "**a**b**" the span "**a**" is taken, so
      "b**" stays plain even though "**b**" would also be a match. */
  lemma SplitLeftmostExample()
    ensures Split("**a**b**") == ["", "**a**", "b**"]
  {
    var s := "**a**b**";
    assert FindClose(s, 3) == Some(3);
    assert MatchAt(s, 0) == Some(5);
    assert FindClose(s, 8) == None;
    assert MatchAt(s, 5) == None && MatchAt(s, 6) == None && MatchAt(s, 7) == None;
    assert SplitFrom(s, 5, 8) == ["b**"];
    assert SplitFrom(s, 5, 5) == ["b**"];
    assert s[0..0] == "" && s[0..5] == "**a**";
  }

  /** How the three parts of the example sentence are shown. */
  lemma RenderExample()
    ensures Render("Try ") == Plain("Try ")
    ensures Render("**this**") == Bold("this")
    ensures Render(".") == Plain(".")
  {
    assert "**this**"[..2] == "**" && "**this**"[6..] == "**";
    assert "**this**"[2..6] == "this";
  }

  /** A bold span inside a sentence is shown bold without its delimiters. */
  lemma ParseMessageExamples()
    ensures ParseMessage("Try **this**.") == [Plain("Try "), Bold("this"), Plain(".")]
  {
    SplitExample();
    RenderExample();
    var r := ParseMessage("Try **this**.");
    assert |r| == 3;
    assert r[0] == Plain("Try ") && r[1] == Bold("this") && r[2] == Plain(".");
  }

  /** A lone "**" is one part whose delimiters overlap: it is shown as an
      empty bold span. */
  lemma ParseMessageLoneDelimiter()
    ensures ParseMessage("**") == [Bold("")]
  {
    var s := "**";
    assert MatchAt(s, 0) == None && MatchAt(s, 1) == None;
    assert Split(s) == ["**"];
    var r := ParseMessage(s);
    assert r[0] == Render("**") == Bold("");
  }
}
