/**
 Text primitives the configuration and command builders rely on: substring
 search (Python's `in`), left-to-right non-overlapping replacement (Python's
 `str.replace`), splitting at a marker, joining with a separator, and reading
 a text as newline-terminated lines.
 */
module Strings {

  /** `p` is a prefix of `s`. */
  predicate StartsWith(s: string, p: string) {
    |p| <= |s| && s[..|p|] == p
  }

  /** `p` is a suffix of `s`. */
  predicate EndsWith(s: string, p: string) {
    |p| <= |s| && s[|s| - |p|..] == p
  }

  /** A text built as `head + mid + tail` starts with `head`, ends with `tail`, and holds `mid` between them. */
  lemma Bracketed(x: string, head: string, mid: string, tail: string)
    requires x == head + mid + tail
    ensures |head| + |tail| <= |x|
    ensures StartsWith(x, head) && EndsWith(x, tail)
    ensures x[|head|..|x| - |tail|] == mid
  {
    assert x[..|head|] == head;
    assert x[|x| - |tail|..] == tail;
  }

  /** Python's `p in s` for strings: `p` occurs somewhere in `s`. */
  predicate Contains(s: string, p: string)
    decreases |s|
  {
    StartsWith(s, p) || (|s| > 0 && Contains(s[1..], p))
  }

  /** `p` occurs in `s` starting at position `i`. */
  predicate OccursAt(s: string, p: string, i: int) {
    0 <= i && i + |p| <= |s| && s[i..i + |p|] == p
  }

  /** The recursive search agrees with the positional reading of "occurs somewhere". */
  lemma {:induction false} ContainsIffOccurs(s: string, p: string)
    ensures Contains(s, p) <==> exists i :: OccursAt(s, p, i)
    decreases |s|
  {
    if Contains(s, p) {
      if StartsWith(s, p) {
        assert OccursAt(s, p, 0);
      } else {
        ContainsIffOccurs(s[1..], p);
        var j :| OccursAt(s[1..], p, j);
        assert s[1..][j..j + |p|] == s[j + 1..j + 1 + |p|];
        assert OccursAt(s, p, j + 1);
      }
    }
    if exists i :: OccursAt(s, p, i) {
      var i :| OccursAt(s, p, i);
      if i == 0 {
        assert StartsWith(s, p);
      } else {
        assert s[1..][i - 1..i - 1 + |p|] == s[i..i + |p|];
        assert OccursAt(s[1..], p, i - 1);
        ContainsIffOccurs(s[1..], p);
      }
    }
  }

  /** An occurrence in either operand is an occurrence in the concatenation. */
  lemma ContainsConcat(a: string, b: string, p: string)
    requires Contains(a, p) || Contains(b, p)
    ensures Contains(a + b, p)
  {
    ContainsIffOccurs(a, p);
    ContainsIffOccurs(b, p);
    ContainsIffOccurs(a + b, p);
    if Contains(a, p) {
      var i :| OccursAt(a, p, i);
      assert (a + b)[i..i + |p|] == a[i..i + |p|];
      assert OccursAt(a + b, p, i);
    } else {
      var i :| OccursAt(b, p, i);
      assert (a + b)[|a| + i..|a| + i + |p|] == b[i..i + |p|];
      assert OccursAt(a + b, p, |a| + i);
    }
  }

  /** Containment is transitive: a text containing `q` contains everything `q` contains. */
  lemma ContainsTransitive(s: string, q: string, p: string)
    requires Contains(s, q) && Contains(q, p)
    ensures Contains(s, p)
  {
    ContainsIffOccurs(s, q);
    ContainsIffOccurs(q, p);
    ContainsIffOccurs(s, p);
    var i :| OccursAt(s, q, i);
    var j :| OccursAt(q, p, j);
    forall k | 0 <= k < |p| ensures s[i + j + k] == p[k] {
      assert p[k] == q[j + k];
      assert q[j + k] == s[i..i + |q|][j + k];
    }
    assert s[i + j..i + j + |p|] == p;
    assert OccursAt(s, p, i + j);
  }

  /** A text lacking the first character of a non-empty pattern cannot contain it. */
  lemma {:induction false} NotContainsMissingFirst(s: string, p: string)
    requires |p| > 0 && p[0] !in s
    ensures !Contains(s, p)
    decreases |s|
  {
    if |s| > 0 {
      assert s[0] in s;
      assert p[0] !in s[1..] by {
        forall k | 0 <= k < |s[1..]| ensures s[1..][k] != p[0] {
          assert s[1..][k] == s[k + 1];
        }
      }
      NotContainsMissingFirst(s[1..], p);
    }
  }

  /**
   Python's `s.replace(pat, rep)` for a non-empty `pat`: scan from the left,
   replace each occurrence, and resume the scan after it, so occurrences never
   overlap. A text without `pat` is returned unchanged; a text with it yields
   a text containing `rep`, and the text grows whenever `rep` is longer.
   */
  function Replace(s: string, pat: string, rep: string): (r: string)
    requires |pat| > 0
    ensures !Contains(s, pat) ==> r == s
    ensures Contains(s, pat) ==> Contains(r, rep)
    ensures |pat| <= |rep| ==> |s| <= |r|
    ensures |pat| < |rep| && Contains(s, pat) ==> |s| < |r|
    decreases |s|
  {
    if StartsWith(s, pat) then
      assert StartsWith(rep + Replace(s[|pat|..], pat, rep), rep);
      rep + Replace(s[|pat|..], pat, rep)
    else if |s| == 0 then
      s
    else
      var tail := Replace(s[1..], pat, rep);
      assert ([s[0]] + tail)[1..] == tail;
      assert s == [s[0]] + s[1..];
      [s[0]] + tail
  }

  /**
   The pieces of `s` between the non-overlapping, leftmost occurrences of `pat`
   that `Replace` finds; there is always at least one piece.
   */
  function Split(s: string, pat: string): (parts: seq<string>)
    requires |pat| > 0
    ensures |parts| > 0
    decreases |s|
  {
    if StartsWith(s, pat) then [[]] + Split(s[|pat|..], pat)
    else if |s| == 0 then [[]]
    else
      var rest := Split(s[1..], pat);
      [[s[0]] + rest[0]] + rest[1..]
  }

  /** The first piece is a prefix of the text. */
  lemma {:induction false} SplitFirstPrefix(s: string, pat: string)
    requires |pat| > 0
    ensures StartsWith(s, Split(s, pat)[0])
    decreases |s|
  {
    SplitStep(s, pat);
    if !StartsWith(s, pat) && |s| > 0 {
      SplitFirstPrefix(s[1..], pat);
      var first := Split(s, pat)[0];
      var r0 := Split(s[1..], pat)[0];
      assert first == [s[0]] + r0;
      assert s[1..][..|r0|] == r0;
      assert s[..|first|] == first;
    }
  }

  /** No piece contains the pattern: every occurrence the scan finds falls between pieces. */
  lemma {:induction false} SplitPiecesAvoid(s: string, pat: string)
    requires |pat| > 0
    ensures forall i :: 0 <= i < |Split(s, pat)| ==> !Contains(Split(s, pat)[i], pat)
    decreases |s|
  {
    var parts := Split(s, pat);
    SplitStep(s, pat);
    if StartsWith(s, pat) {
      SplitPiecesAvoid(s[|pat|..], pat);
      var rest := Split(s[|pat|..], pat);
      assert !Contains([], pat);
      assert forall i :: 1 <= i < |parts| ==> parts[i] == rest[i - 1];
    } else if |s| > 0 {
      SplitPiecesAvoid(s[1..], pat);
      SplitFirstPrefix(s[1..], pat);
      var rest := Split(s[1..], pat);
      var first := [s[0]] + rest[0];
      assert first[1..] == rest[0];
      assert !StartsWith(first, pat) by {
        assert s[1..][..|rest[0]|] == rest[0];
        assert |pat| <= |first| ==> first[..|pat|] == s[..|pat|];
      }
      assert parts[0] == first;
      assert forall i :: 1 <= i < |parts| ==> parts[i] == rest[i];
    } else {
      assert !Contains([], pat);
    }
  }

  /**
   The scan finds the leftmost occurrence: the first piece runs up to the
   first position where `pat` occurs, no earlier position holds an
   occurrence, and the remaining pieces are the split of what follows that
   occurrence. With a single piece, that piece is the whole text.
   */
  lemma {:induction false} SplitFirstOccurrence(s: string, pat: string)
    requires |pat| > 0
    ensures var parts := Split(s, pat);
      && (forall i :: 0 <= i < |parts[0]| ==> !OccursAt(s, pat, i))
      && (|parts| == 1 ==> parts[0] == s)
      && (|parts| > 1 ==>
            && OccursAt(s, pat, |parts[0]|)
            && parts[1..] == Split(s[|parts[0]| + |pat|..], pat))
    decreases |s|
  {
    var parts := Split(s, pat);
    SplitStep(s, pat);
    if StartsWith(s, pat) {
      assert OccursAt(s, pat, 0);
    } else if |s| > 0 {
      var rest := Split(s[1..], pat);
      SplitFirstOccurrence(s[1..], pat);
      assert parts[0] == [s[0]] + rest[0];
      forall i | 0 <= i < |parts[0]|
        ensures !OccursAt(s, pat, i)
      {
        if i > 0 {
          OccursShift(s, pat, i);
        }
      }
      if |parts| > 1 {
        OccursShift(s, pat, |parts[0]|);
        assert parts[1..] == rest[1..];
        assert s[1..][|rest[0]| + |pat|..] == s[|parts[0]| + |pat|..];
      }
    }
  }

  /** An occurrence past the first character is an occurrence in the rest of the text. */
  lemma OccursShift(s: string, pat: string, i: int)
    requires |s| > 0 && i > 0
    ensures OccursAt(s, pat, i) <==> OccursAt(s[1..], pat, i - 1)
  {
    if i + |pat| <= |s| {
      assert s[1..][i - 1..i - 1 + |pat|] == s[i..i + |pat|];
    }
  }

  /** Python's `sep.join(parts)`. */
  function Join(parts: seq<string>, sep: string): string
    decreases |parts|
  {
    if |parts| == 0 then []
    else if |parts| == 1 then parts[0]
    else parts[0] + sep + Join(parts[1..], sep)
  }

  /** Putting one character in front of the first piece puts it in front of the joined text. */
  lemma JoinConsFirst(c: char, parts: seq<string>, sep: string)
    requires |parts| > 0
    ensures Join([[c] + parts[0]] + parts[1..], sep) == [c] + Join(parts, sep)
  {
    var parts' := [[c] + parts[0]] + parts[1..];
    if |parts| > 1 {
      assert parts'[1..] == parts[1..];
    }
  }

  /**
   Reference reading of `Replace`: split the text at every occurrence the scan
   finds and join the pieces with the replacement. Everything outside the
   replaced occurrences is kept, in order.
   */
  lemma {:induction false} ReplaceIsJoinOfSplit(s: string, pat: string, rep: string)
    requires |pat| > 0
    ensures Replace(s, pat, rep) == Join(Split(s, pat), rep)
    decreases |s|
  {
    if StartsWith(s, pat) {
      ScanAtMatch(s, pat, rep);
      ReplaceIsJoinOfSplit(s[|pat|..], pat, rep);
      JoinEmptyFirst(Split(s[|pat|..], pat), rep);
    } else if |s| > 0 {
      ScanPastChar(s, pat, rep);
      ReplaceIsJoinOfSplit(s[1..], pat, rep);
      JoinConsFirst(s[0], Split(s[1..], pat), rep);
    }
  }

  /** One step of both scans at an occurrence: it is consumed, leaving an empty piece. */
  lemma ScanAtMatch(s: string, pat: string, rep: string)
    requires |pat| > 0 && StartsWith(s, pat)
    ensures Replace(s, pat, rep) == rep + Replace(s[|pat|..], pat, rep)
    ensures Split(s, pat) == [[]] + Split(s[|pat|..], pat)
  {
  }

  /** One step of both scans past a character that starts no occurrence. */
  lemma ScanPastChar(s: string, pat: string, rep: string)
    requires |pat| > 0 && !StartsWith(s, pat) && |s| > 0
    ensures Replace(s, pat, rep) == [s[0]] + Replace(s[1..], pat, rep)
    ensures Split(s, pat) == [[s[0]] + Split(s[1..], pat)[0]] + Split(s[1..], pat)[1..]
  {
  }

  /** An empty first piece contributes only its separator. */
  lemma JoinEmptyFirst(rest: seq<string>, sep: string)
    requires |rest| > 0
    ensures Join([[]] + rest, sep) == sep + Join(rest, sep)
  {
    assert ([[]] + rest)[1..] == rest;
  }

  /**
   For a pattern whose first character does not recur inside it, the scan
   keeps a pattern-free `pre`, replaces the occurrence right after it, and
   keeps a pattern-free `rest`: no occurrence can start inside `pre`.
   */
  lemma {:induction false} ReplaceAfterPrefix(pre: string, pat: string, rep: string, rest: string)
    requires |pat| > 0 && !Contains(pre, pat) && !Contains(rest, pat)
    requires forall k :: 1 <= k < |pat| ==> pat[k] != pat[0]
    ensures Replace(pre + pat + rest, pat, rep) == pre + rep + rest
    decreases |pre|
  {
    if |pre| == 0 {
      assert pre + pat + rest == pat + rest;
      ReplaceAtFront(pre + pat + rest, pat, rep, rest);
      assert pre + rep + rest == rep + rest;
    } else {
      NoStartBeforePattern(pre, pat, rest);
      ReplaceAfterPrefix(pre[1..], pat, rep, rest);
      ReplacePastFirst(pre, pat, rep, rest);
    }
  }

  /** Putting the first element back in front of the rest of a concatenation. */
  lemma ConsConcat<T>(pre: seq<T>, mid: seq<T>, rest: seq<T>)
    requires |pre| > 0
    ensures [pre[0]] + (pre[1..] + mid + rest) == pre + mid + rest
  {
  }

  /** An occurrence at the front, followed by pattern-free text, is the only one replaced. */
  lemma ReplaceAtFront(x: string, pat: string, rep: string, rest: string)
    requires |pat| > 0 && x == pat + rest && !Contains(rest, pat)
    ensures Replace(x, pat, rep) == rep + rest
  {
    assert StartsWith(x, pat);
    assert x[|pat|..] == rest;
  }

  /**
   The scan steps past the first character of a prefix that starts no
   occurrence, so what it does to the rest of the prefix carries over.
   */
  lemma ReplacePastFirst(pre: string, pat: string, rep: string, rest: string)
    requires |pat| > 0 && |pre| > 0 && !StartsWith(pre + pat + rest, pat)
    requires Replace(pre[1..] + pat + rest, pat, rep) == pre[1..] + rep + rest
    ensures Replace(pre + pat + rest, pat, rep) == pre + rep + rest
  {
    var x := pre + pat + rest;
    var y := pre[1..] + pat + rest;
    assert x == [pre[0]] + y by { ConsConcat(pre, pat, rest); }
    ReplaceUnstarted(x, pat, rep, pre[0], y, pre[1..] + rep + rest);
    ConsConcat(pre, rep, rest);
  }

  /** Where no occurrence starts, the scan keeps the first character. */
  lemma ReplaceUnstarted(x: string, pat: string, rep: string, c: char, y: string, z: string)
    requires |pat| > 0 && x == [c] + y && !StartsWith(x, pat)
    requires Replace(y, pat, rep) == z
    ensures Replace(x, pat, rep) == [c] + z
  {
    assert x[1..] == y;
  }

  /** A non-empty pattern-free text in front of the pattern does not start an occurrence. */
  lemma NoStartBeforePattern(pre: string, pat: string, rest: string)
    requires |pat| > 0 && |pre| > 0 && !Contains(pre, pat)
    requires forall k :: 1 <= k < |pat| ==> pat[k] != pat[0]
    ensures !StartsWith(pre + pat + rest, pat)
    ensures !Contains(pre[1..], pat)
  {
    var x := pre + pat + rest;
    if |pre| >= |pat| {
      assert x[..|pat|] == pre[..|pat|];
    } else {
      assert x[|pre|] == pat[0];
    }
  }

  /** Replacing a pattern by itself changes nothing. */
  lemma {:induction false} ReplaceBySelf(s: string, pat: string)
    requires |pat| > 0
    ensures Replace(s, pat, pat) == s
    decreases |s|
  {
    if StartsWith(s, pat) {
      ReplaceBySelf(s[|pat|..], pat);
      assert s == s[..|pat|] + s[|pat|..];
    } else if |s| > 0 {
      ReplaceBySelf(s[1..], pat);
      assert s == [s[0]] + s[1..];
    }
  }

  /** Joining the pieces back with the pattern restores the text. */
  lemma SplitJoinRoundTrip(s: string, pat: string)
    requires |pat| > 0
    ensures Join(Split(s, pat), pat) == s
  {
    ReplaceIsJoinOfSplit(s, pat, pat);
    ReplaceBySelf(s, pat);
  }

  /** Joining two or more pieces puts the separator into the text. */
  lemma JoinHasSeparator(parts: seq<string>, sep: string)
    requires |parts| > 1
    ensures Contains(Join(parts, sep), sep)
  {
    var tail := Join(parts[1..], sep);
    assert StartsWith(sep + tail, sep);
    ContainsConcat(parts[0], sep + tail, sep);
    assert parts[0] + sep + tail == parts[0] + (sep + tail);
  }

  /** The text contains the pattern exactly when the split yields more than one piece. */
  lemma SplitFindsOccurrence(s: string, pat: string)
    requires |pat| > 0
    ensures Contains(s, pat) <==> |Split(s, pat)| > 1
  {
    var parts := Split(s, pat);
    SplitJoinRoundTrip(s, pat);
    if |parts| > 1 {
      JoinHasSeparator(parts, pat);
    } else {
      SplitPiecesAvoid(s, pat);
      assert s == parts[0];
    }
  }

  /** Total length of the pieces. */
  function TotalLength(parts: seq<string>): nat
    decreases |parts|
  {
    if |parts| == 0 then 0 else |parts[0]| + TotalLength(parts[1..])
  }

  /** A join of `n` pieces holds the pieces and `n - 1` separators. */
  lemma {:induction false} JoinLength(parts: seq<string>, sep: string)
    requires |parts| > 0
    ensures |Join(parts, sep)| == TotalLength(parts) + (|parts| - 1) * |sep|
    decreases |parts|
  {
    if |parts| > 1 {
      JoinLength(parts[1..], sep);
    }
  }

  /** Swapping the separator changes the length once per gap between pieces. */
  lemma JoinLengthChange(parts: seq<string>, a: string, b: string)
    requires |parts| > 0
    ensures |Join(parts, b)| == |Join(parts, a)| + (|parts| - 1) * (|b| - |a|)
  {
    var k := |parts| - 1;
    JoinLength(parts, a);
    JoinLength(parts, b);
    assert k * (|b| - |a|) == k * |b| - k * |a|;
  }

  /**
   Every occurrence the scan replaces trades `|pat|` characters for `|rep|`:
   with `k` occurrences, the length changes by `k * (|rep| - |pat|)`.
   */
  lemma ReplaceLength(s: string, pat: string, rep: string)
    requires |pat| > 0
    ensures |Replace(s, pat, rep)| == |s| + (|Split(s, pat)| - 1) * (|rep| - |pat|)
  {
    ReplaceIsJoinOfSplit(s, pat, rep);
    SplitJoinRoundTrip(s, pat);
    JoinLengthChange(Split(s, pat), pat, rep);
  }

  /** Splitting at a one-character separator undoes joining with it, when no piece holds that character. */
  lemma {:induction false} SplitJoinSingle(parts: seq<string>, c: char)
    requires |parts| > 0
    requires forall i :: 0 <= i < |parts| ==> c !in parts[i]
    ensures Split(Join(parts, [c]), [c]) == parts
    decreases |parts|
  {
    if |parts| == 1 {
      SplitPiece(parts[0], [], c);
    } else {
      var tail := parts[1..];
      assert forall i :: 0 <= i < |tail| ==> tail[i] == parts[i + 1];
      SplitJoinSingle(tail, c);
      assert parts[0] in parts;
      SplitJoinStep(parts[0], tail, c);
      assert [parts[0]] + tail == parts;
    }
  }

  /** One more piece free of `c` in front keeps the split-join round trip. */
  lemma SplitJoinStep(x: string, tail: seq<string>, c: char)
    requires c !in x && |tail| > 0
    requires Split(Join(tail, [c]), [c]) == tail
    ensures Split(Join([x] + tail, [c]), [c]) == [x] + tail
  {
    assert ([x] + tail)[1..] == tail;
    assert Join([x] + tail, [c]) == x + [c] + Join(tail, [c]);
    SplitPiece(x, Join(tail, [c]), c);
  }

  /** A piece free of `c`, followed by `c` and more text, is split off as the first piece. */
  lemma {:induction false} SplitPiece(x: string, tail: string, c: char)
    requires c !in x
    ensures Split(x + [c] + tail, [c]) == [x] + Split(tail, [c])
    ensures Split(x, [c]) == [x]
    decreases |x|
  {
    var s := x + [c] + tail;
    if |x| == 0 {
      assert s == [c] + tail && s[1..] == tail;
      assert StartsWith(s, [c]);
      SplitStep(s, [c]);
      SplitStep(x, [c]);
    } else {
      assert c !in x[1..] by {
        forall k | 0 <= k < |x[1..]| ensures x[1..][k] != c {
          assert x[1..][k] == x[k + 1];
        }
      }
      SplitPiece(x[1..], tail, c);
      assert s[1..] == x[1..] + [c] + tail;
      assert x[0] in x;
      assert s[..1] == [x[0]] && x[..1] == [x[0]];
      SplitStep(s, [c]);
      SplitStep(x, [c]);
      assert [x[0]] + x[1..] == x;
    }
  }

  /** One step of the split scan: at an occurrence, past a character, or at the end. */
  lemma SplitStep(s: string, pat: string)
    requires |pat| > 0
    ensures StartsWith(s, pat) ==> Split(s, pat) == [[]] + Split(s[|pat|..], pat)
    ensures !StartsWith(s, pat) && |s| > 0 ==>
      Split(s, pat) == [[s[0]] + Split(s[1..], pat)[0]] + Split(s[1..], pat)[1..]
    ensures |s| == 0 ==> Split(s, pat) == [[]]
  {
  }

  /** Position of the first `c` in `s`, or `|s|` when there is none. */
  function IndexOf(s: string, c: char): (i: nat)
    ensures i <= |s|
    ensures i < |s| ==> s[i] == c
    ensures forall j :: 0 <= j < i ==> s[j] != c
    decreases |s|
  {
    if |s| == 0 then 0
    else if s[0] == c then 0
    else 1 + IndexOf(s[1..], c)
  }

  /** In `a + [c] + b` with `c` absent from `a`, the first `c` is the one after `a`. */
  lemma IndexOfAfter(a: string, c: char, b: string)
    requires c !in a
    ensures IndexOf(a + [c] + b, c) == |a|
  {
    var s := a + [c] + b;
    var i := IndexOf(s, c);
    assert s[|a|] == c;
    assert forall j :: 0 <= j < |a| ==> s[j] == a[j];
  }

  /** A text read as lines: each line ends at a newline, which is dropped; an unterminated tail is a last line. */
  function Lines(s: string): seq<string>
    decreases |s|
  {
    if |s| == 0 then []
    else
      var i := IndexOf(s, '\n');
      if i == |s| then [s] else [s[..i]] + Lines(s[i + 1..])
  }

  /** A newline-terminated line in front of a text becomes the first line. */
  lemma LinesCons(a: string, rest: string)
    requires '\n' !in a
    ensures Lines(a + "\n" + rest) == [a] + Lines(rest)
  {
    var s := a + "\n" + rest;
    IndexOfAfter(a, '\n', rest);
    assert s[..|a|] == a;
    assert s[|a| + 1..] == rest;
  }

  /** The texts of consecutive writes, as they end up in a file. */
  function Concat(writes: seq<string>): string
    decreases |writes|
  {
    if |writes| == 0 then [] else writes[0] + Concat(writes[1..])
  }
}
