/** How gendocs rewrites the marked blocks of a document. */
module Gendocs {
  import opened Wrappers

  function OpenMarker(name: string): string
  {
    "<!-- gendocs:" + name + " -->"
  }

  function CloseMarker(name: string): string
  {
    "<!-- /gendocs:" + name + " -->"
  }

  predicate OccursAt(s: string, pat: string, i: int)
  {
    0 <= i && i + |pat| <= |s| && s[i..i + |pat|] == pat
  }

  ghost predicate Free(s: string, pat: string)
  {
    forall i :: !OccursAt(s, pat, i)
  }

  /** The leftmost occurrence of `pat`. */
  function Find(s: string, pat: string): (r: Option<nat>)
    requires pat != ""
    ensures r.Some? ==> OccursAt(s, pat, r.value) && forall i :: OccursAt(s, pat, i) ==> r.value <= i
    ensures r.None? ==> Free(s, pat)
  {
    if |s| < |pat| then None
    else if s[..|pat|] == pat then Some(0)
    else
      assert forall i :: i > 0 ==> OccursAt(s, pat, i) == OccursAt(s[1..], pat, i - 1) by {
        forall i | i > 0 ensures OccursAt(s, pat, i) == OccursAt(s[1..], pat, i - 1) { OccursIn(s, pat, i, 1); }
      }
      var rest := Find(s[1..], pat);
      if rest.Some? then Some(1 + rest.value) else None
  }

  lemma FindRange(s: string, pat: string)
    requires pat != ""
    ensures Find(s, pat).Some? ==> Find(s, pat).value + |pat| <= |s|
  {
    hide Find;
  }

  /** The first block: from the leftmost open marker to the first close marker after it. */
  function FindBlock(doc: string, name: string): (r: Option<(nat, nat)>)
    ensures r.Some? ==> r.value.0 < r.value.1 <= |doc|
  {
    var i := Find(doc, OpenMarker(name));
    if i.None? then None
    else
      var after := i.value + |OpenMarker(name)|;
      var j := Find(doc[after..], CloseMarker(name));
      if j.None? then None else Some((i.value, after + j.value + |CloseMarker(name)|))
  }

  function Block(name: string, content: string): string
  {
    OpenMarker(name) + "\n" + content + CloseMarker(name)
  }

  /** Every block, from the left, replaced; `FindBlock` is the shortest match of the pattern at its leftmost start. */
  function Rewrite(doc: string, name: string, content: string): string
    decreases |doc|
  {
    var b := FindBlock(doc, name);
    if b.None? then doc else doc[..b.value.0] + Block(name, content) + Rewrite(doc[b.value.1..], name, content)
  }

  /** `inject`, between reading the file and writing it. */
  function Inject(doc: string, name: string, content: string): Result<string, string>
  {
    if Find(doc, OpenMarker(name)).None? then Err(OpenMarker(name)) else Ok(Rewrite(doc, name, content))
  }

  /** The text before, between and after the blocks. */
  function Outside(doc: string, name: string): (segments: seq<string>)
    ensures segments != []
    decreases |doc|
  {
    var b := FindBlock(doc, name);
    if b.None? then [doc] else [doc[..b.value.0]] + Outside(doc[b.value.1..], name)
  }

  function Joined(segments: seq<string>, block: string): string
    requires segments != []
  {
    if |segments| == 1 then segments[0] else segments[0] + block + Joined(segments[1..], block)
  }

  /** The new document is the old text outside the blocks with the new block in each place. */
  lemma {:induction false} RewriteIsJoined(doc: string, name: string, content: string)
    ensures Rewrite(doc, name, content) == Joined(Outside(doc, name), Block(name, content))
    decreases |doc|
  {
    var b := FindBlock(doc, name);
    if b.Some? {
      RewriteIsJoined(doc[b.value.1..], name, content);
      assert Outside(doc, name)[1..] == Outside(doc[b.value.1..], name);
    }
    hide FindBlock, Block;
  }

  // ---- The markers cannot overlap -------------------------------------------

  lemma MarkersNonEmpty(name: string)
    ensures OpenMarker(name) != "" && CloseMarker(name) != ""
  {
  }

  predicate StartsOnly(marker: string)
  {
    marker != "" && marker[0] == '<' && forall i :: 0 < i < |marker| ==> marker[i] != '<'
  }

  lemma MarkersStart(name: string)
    requires '<' !in name
    ensures StartsOnly(OpenMarker(name)) && StartsOnly(CloseMarker(name))
    ensures OpenMarker(name)[5] == 'g' && CloseMarker(name)[5] == '/'
  {
  }

  /** An occurrence in a text followed by a marker is in the text or is the marker. */
  lemma NoStraddle(text: string, marker: string, rest: string, pat: string, i: int)
    requires StartsOnly(pat) && StartsOnly(marker) && OccursAt(text + marker + rest, pat, i)
    ensures OccursAt(text, pat, i) || i == |text| || i >= |text| + |marker|
  {
    var s := text + marker + rest;
    assert s[|text|..|text| + |marker|] == marker;
    CharAt(s, pat, i, |text| - i);
    CharAt(s, pat, i, 0);
    CharAt(s, marker, |text|, i - |text|);
    CharAt(s, marker, |text|, 0);
    assert 0 <= i && i + |pat| <= |text| ==> text[i..i + |pat|] == s[i..i + |pat|];
  }

  lemma CharAt(s: string, pat: string, i: int, k: int)
    ensures OccursAt(s, pat, i) && 0 <= k < |pat| ==> s[i + k] == pat[k]
  {
    assert OccursAt(s, pat, i) && 0 <= k < |pat| ==> s[i..i + |pat|][k] == s[i + k];
  }

  lemma OccursIn(s: string, pat: string, i: int, from: nat)
    requires from <= |s| && from <= i
    ensures OccursAt(s, pat, i) <==> OccursAt(s[from..], pat, i - from)
  {
    assert i + |pat| <= |s| ==> s[i..i + |pat|] == s[from..][i - from..i - from + |pat|];
  }

  lemma FindIs(s: string, pat: string, i: nat)
    requires pat != "" && OccursAt(s, pat, i) && forall k :: OccursAt(s, pat, k) ==> i <= k
    ensures Find(s, pat) == Some(i)
  {
    hide Find;
  }

  lemma OccursInPrefix(doc: string, pat: string, i: nat, k: int)
    requires i <= |doc| && OccursAt(doc[..i], pat, k)
    ensures OccursAt(doc, pat, k)
  {
    assert doc[..i][k..k + |pat|] == doc[k..k + |pat|];
  }

  lemma PrefixFree(doc: string, pat: string, i: nat)
    requires pat != "" && Find(doc, pat) == Some(i)
    ensures i <= |doc| && Find(doc[..i], pat).None?
  {
    var r := Find(doc[..i], pat);
    if r.Some? {
      OccursInPrefix(doc, pat, i, r.value);
    }
    hide Find;
  }

  /** Where a search ends in a text followed by a marker: in the text, or at the marker if that is what is sought. */
  lemma FindBefore(text: string, marker: string, rest: string, pat: string)
    requires StartsOnly(marker) && StartsOnly(pat)
    ensures Find(text, pat).Some? ==> Find(text + marker + rest, pat) == Find(text, pat)
    ensures Find(text, pat).None? && marker == pat ==> Find(text + marker + rest, pat) == Some(|text|)
  {
    hide Find;
    var s := text + marker + rest;
    forall k | OccursAt(s, pat, k) ensures k >= |text| || OccursAt(text, pat, k) {
      NoStraddle(text, marker, rest, pat, k);
    }
    var r := Find(text, pat);
    if r.Some? {
      assert s[..|text|] == text;
      OccursInPrefix(s, pat, |text|, r.value);
      FindIs(s, pat, r.value);
    } else if marker == pat {
      assert s[|text|..|text| + |pat|] == pat;
      FindIs(s, pat, |text|);
    }
  }

  lemma FindFree(s: string, pat: string)
    requires pat != ""
    ensures Find(s, pat).None? <==> Free(s, pat)
  {
    hide Find;
  }

  lemma FreeAfterNewline(content: string, pat: string)
    requires StartsOnly(pat) && Free(content, pat)
    ensures Find("\n" + content, pat).None?
  {
    hide Find;
    forall k ensures !OccursAt("\n" + content, pat, k) {
      CharAt("\n" + content, pat, k, 0);
      if k >= 1 {
        OccursIn("\n" + content, pat, k, 1);
        assert ("\n" + content)[1..] == content;
      }
    }
  }

  lemma BlockIs(name: string, content: string)
    ensures Block(name, content) == OpenMarker(name) + ("\n" + content) + CloseMarker(name)
  {
    hide OpenMarker, CloseMarker;
  }

  lemma Regroup(a: string, b: string, c: string, d: string, e: string)
    ensures a + (b + c + d) + e == a + b + (c + d + e)
  {
  }

  lemma DropPrefix(a: string, b: string)
    ensures (a + b)[|a|..] == b
  {
  }

  lemma FindBlockIs(doc: string, name: string, before: string, tail: string)
    requires doc == before + OpenMarker(name) + tail
    requires Find(doc, OpenMarker(name)) == Some(|before|)
    ensures Find(tail, CloseMarker(name)).Some? ==>
              FindBlock(doc, name) ==
              Some((|before|, |before| + |OpenMarker(name)| + Find(tail, CloseMarker(name)).value
                  + |CloseMarker(name)|))
  {
    DropPrefix(before + OpenMarker(name), tail);
    hide Find, OpenMarker, CloseMarker;
  }

  lemma BlockAt(before: string, name: string, inner: string, rest: string)
    requires '<' !in name && Find(before, OpenMarker(name)).None? && Free(inner, CloseMarker(name))
    ensures var block := OpenMarker(name) + inner + CloseMarker(name);
            FindBlock(before + block + rest, name) == Some((|before|, |before| + |block|))
  {
    hide OpenMarker, CloseMarker, Find, FindBlock, StartsOnly, OccursAt;
    var open, close := OpenMarker(name), CloseMarker(name);
    var tail := inner + close + rest;
    MarkersStart(name);
    FindFree(inner, close);
    FindBefore(before, open, tail, open);
    FindBefore(inner, close, rest, close);
    FindBlockIs(before + open + tail, name, before, tail);
    Regroup(before, open, inner, close, rest);
    assert before + (open + inner + close) + rest == before + open + tail;
  }

  /** A block put after text without open markers is found again, up to the first close marker of its content. */
  lemma BlockFound(before: string, name: string, content: string, rest: string)
    requires '<' !in name && Find(before, OpenMarker(name)).None? && Free(content, CloseMarker(name))
    ensures FindBlock(before + Block(name, content) + rest, name) == Some((|before|, |before| + |Block(name, content)|))
  {
    hide OpenMarker, CloseMarker, Find, FindBlock, OccursAt, Block, Free, StartsOnly;
    MarkersStart(name);
    MarkersNonEmpty(name);
    FreeAfterNewline(content, CloseMarker(name));
    FindFree("\n" + content, CloseMarker(name));
    BlockIs(name, content);
    BlockAt(before, name, "\n" + content, rest);
  }

  /**
   Content without the close marker leaves the text outside the blocks, and the places of the
   blocks, as they were.
   */
  lemma {:induction false} OutsideUnchanged(doc: string, name: string, content: string)
    requires '<' !in name && Free(content, CloseMarker(name))
    ensures Outside(Rewrite(doc, name, content), name) == Outside(doc, name)
    decreases |doc|
  {
    RewriteUnfolds(doc, name, content);
    hide Rewrite;
    var b := FindBlock(doc, name);
    if b.Some? {
      var before, rest := doc[..b.value.0], Rewrite(doc[b.value.1..], name, content);
      OutsideUnchanged(doc[b.value.1..], name, content);
      PrefixFree(doc, OpenMarker(name), b.value.0);
      hide Block, Find, FindBlock, OpenMarker, CloseMarker, OccursAt, Free;
      BlockFound(before, name, content, rest);
      var after := before + Block(name, content) + rest;
      assert after == Rewrite(doc, name, content);
      assert after[..|before|] == before && after[|before| + |Block(name, content)|..] == rest;
    }
  }

  lemma RewriteTwice(doc: string, name: string, c1: string, c2: string)
    requires '<' !in name && Free(c1, CloseMarker(name))
    ensures Rewrite(Rewrite(doc, name, c1), name, c2) == Rewrite(doc, name, c2)
  {
    OutsideUnchanged(doc, name, c1);
    RewriteIsJoined(Rewrite(doc, name, c1), name, c2);
    RewriteIsJoined(doc, name, c2);
    hide Rewrite, Outside, Joined;
  }

  // ---- Why the first content must be free of the close marker ---------------

  /** Where the block that starts in `a` ends, if a close marker follows `a`. */
  function BlockEnd(a: string, name: string): nat
    requires Find(a, OpenMarker(name)).Some?
  {
    var after := Find(a, OpenMarker(name)).value + |OpenMarker(name)|;
    var j := Find(a[after..], CloseMarker(name));
    if j.Some? then after + j.value + |CloseMarker(name)| else |a| + |CloseMarker(name)|
  }

  lemma BlockEndsByClose(a: string, name: string, b: string)
    requires '<' !in name && Find(a, OpenMarker(name)).Some?
    ensures FindBlock(a + CloseMarker(name) + b, name) == Some((Find(a, OpenMarker(name)).value, BlockEnd(a, name)))
  {
    hide OpenMarker, CloseMarker, Find, FindBlock, StartsOnly, Free;
    var open, close := OpenMarker(name), CloseMarker(name);
    MarkersStart(name);
    MarkersNonEmpty(name);
    var i := Find(a, open).value;
    var after := i + |open|;
    FindBefore(a, close, b, open);
    FindBefore(a[after..], close, b, close);
    assert a == a[..i] + open + a[after..];
    assert a + close + b == a[..i] + open + (a[after..] + close + b);
    FindBlockIs(a + close + b, name, a[..i], a[after..] + close + b);
  }

  lemma FindShifted(before: string, b: string, pat: string)
    requires pat != "" && forall k :: OccursAt(before + b, pat, k) ==> |before| <= k
    ensures Find(b, pat).Some? ==> Find(before + b, pat) == Some(|before| + Find(b, pat).value)
    ensures Find(b, pat).None? ==> Find(before + b, pat).None?
  {
    hide Find, OccursAt;
    var doc := before + b;
    DropPrefix(before, b);
    var r, d := Find(b, pat), Find(doc, pat);
    if r.Some? {
      OccursIn(doc, pat, |before| + r.value, |before|);
    }
    if d.Some? {
      OccursIn(doc, pat, d.value, |before|);
    }
    FindFree(b, pat);
    FindFree(doc, pat);
  }

  /** Text that no block starts in is copied. */
  lemma NoBlockBefore(before: string, b: string, name: string, content: string)
    requires forall k :: OccursAt(before + b, OpenMarker(name), k) ==> |before| <= k
    ensures Rewrite(before + b, name, content) == before + Rewrite(b, name, content)
  {
    hide OccursAt, Block, CloseMarker, OpenMarker, FindBlock, Rewrite;
    BlockShifted(before, b, name);
    var f := FindBlock(b, name);
    RewriteUnfolds(b, name, content);
    RewriteUnfolds(before + b, name, content);
    if f.Some? {
      ShiftSlices(before, b, f.value.0);
      ShiftSlices(before, b, f.value.1);
      Prepend(before, b[..f.value.0], Block(name, content), Rewrite(b[f.value.1..], name, content));
    }
  }

  lemma RewriteUnfolds(doc: string, name: string, content: string)
    ensures var f := FindBlock(doc, name);
            Rewrite(doc, name, content) ==
            if f.None? then doc else doc[..f.value.0] + Block(name, content) + Rewrite(doc[f.value.1..], name, content)
  {
    hide Block, FindBlock;
  }

  lemma Prepend(a: string, b: string, c: string, d: string)
    ensures a + b + c + d == a + (b + c + d)
  {
  }

  lemma ShiftSlices(before: string, b: string, i: nat)
    requires i <= |b|
    ensures (before + b)[..|before| + i] == before + b[..i] && (before + b)[|before| + i..] == b[i..]
  {
  }

  lemma BlockShifted(before: string, b: string, name: string)
    requires forall k :: OccursAt(before + b, OpenMarker(name), k) ==> |before| <= k
    ensures FindBlock(before + b, name) ==
            if FindBlock(b, name).None? then None
            else Some((|before| + FindBlock(b, name).value.0, |before| + FindBlock(b, name).value.1))
  {
    hide CloseMarker, OpenMarker, Find, Free, OccursAt;
    MarkersNonEmpty(name);
    FindShifted(before, b, OpenMarker(name));
    var r := Find(b, OpenMarker(name));
    if r.Some? {
      FindRange(b, OpenMarker(name));
      ShiftSlices(before, b, r.value + |OpenMarker(name)|);
    }
  }

  lemma EmptyRewrite(name: string, content: string)
    ensures Rewrite("", name, content) == ""
  {
  }

  lemma NoOpenBefore(a: string, name: string, b: string, k: int)
    requires '<' !in name && Find(a, OpenMarker(name)).None? && OccursAt(a + CloseMarker(name) + b, OpenMarker(name), k)
    ensures k >= |a + CloseMarker(name)|
  {
    var open, close := OpenMarker(name), CloseMarker(name);
    MarkersStart(name);
    hide OpenMarker, CloseMarker, Find;
    NoStraddle(a, close, b, open, k);
    var s := a + close + b;
    assert s[|a|..|a| + |close|] == close;
    CharAt(s, open, k, 5);
    CharAt(s, close, |a|, 5);
  }

  lemma DropEnd(a: string, close: string, b: string, i: nat)
    requires i <= |a| + |close|
    ensures (a + close + b)[..i] == (a + close)[..i]
    ensures i <= |a| ==> (a + close + b)[i..] == a[i..] + close + b && (a + close)[i..] == a[i..] + close
    ensures i == |a| + |close| ==> (a + close + b)[i..] == b && (a + close)[i..] == ""
  {
  }

  lemma BlockEndRange(a: string, name: string)
    requires Find(a, OpenMarker(name)).Some?
    ensures Find(a, OpenMarker(name)).value < BlockEnd(a, name)
    ensures BlockEnd(a, name) <= |a| || BlockEnd(a, name) == |a| + |CloseMarker(name)|
  {
    hide Find, OpenMarker, CloseMarker;
    MarkersNonEmpty(name);
    FindRange(a, OpenMarker(name));
    var after := Find(a, OpenMarker(name)).value + |OpenMarker(name)|;
    FindRange(a[after..], CloseMarker(name));
  }

  /** Nothing before a close marker reaches past it. */
  lemma {:induction false} SplitAtClose(a: string, b: string, name: string, content: string)
    requires '<' !in name
    ensures Rewrite(a + CloseMarker(name) + b, name, content)
            == Rewrite(a + CloseMarker(name), name, content) + Rewrite(b, name, content)
    ensures |Rewrite(a + CloseMarker(name), name, content)| > 0
    decreases |a|
  {
    hide OpenMarker, CloseMarker, Find, FindBlock, Rewrite, OccursAt, Free, BlockEnd;
    MarkersNonEmpty(name);
    if Find(a, OpenMarker(name)).None? {
      SplitWithoutBlock(a, b, name, content);
    } else {
      var e := BlockEnd(a, name);
      BlockEndRange(a, name);
      if e <= |a| {
        SplitAtClose(a[e..], b, name, content);
      }
      SplitAfterBlock(a, b, name, content);
    }
  }

  lemma SplitWithoutBlock(a: string, b: string, name: string, content: string)
    requires '<' !in name && Find(a, OpenMarker(name)).None?
    ensures Rewrite(a + CloseMarker(name) + b, name, content)
            == Rewrite(a + CloseMarker(name), name, content) + Rewrite(b, name, content)
    ensures |Rewrite(a + CloseMarker(name), name, content)| > 0
  {
    EmptyRewrite(name, content);
    hide OpenMarker, CloseMarker, Find, FindBlock, Rewrite, OccursAt, Free;
    var before := a + CloseMarker(name);
    MarkersNonEmpty(name);
    assert before + "" == before;
    forall k | OccursAt(before + b, OpenMarker(name), k) ensures |before| <= k { NoOpenBefore(a, name, b, k); }
    forall k | OccursAt(before + "", OpenMarker(name), k) ensures |before| <= k { NoOpenBefore(a, name, "", k); }
    NoBlockBefore(before, b, name, content);
    NoBlockBefore(before, "", name, content);
  }

  /** The step past the first block of `a`. */
  lemma SplitAfterBlock(a: string, b: string, name: string, content: string)
    requires '<' !in name && Find(a, OpenMarker(name)).Some?
    requires var e := BlockEnd(a, name);
             e <= |a| ==> Rewrite(a[e..] + CloseMarker(name) + b, name, content)
                          == Rewrite(a[e..] + CloseMarker(name), name, content) + Rewrite(b, name, content)
    ensures Rewrite(a + CloseMarker(name) + b, name, content)
            == Rewrite(a + CloseMarker(name), name, content) + Rewrite(b, name, content)
    ensures |Rewrite(a + CloseMarker(name), name, content)| > 0
  {
    EmptyRewrite(name, content);
    hide OpenMarker, CloseMarker, Find, FindBlock, Rewrite, OccursAt, Free, BlockEnd, Block;
    MarkersNonEmpty(name);
    var close, i, e := CloseMarker(name), Find(a, OpenMarker(name)).value, BlockEnd(a, name);
    BlockEndRange(a, name);
    UnfoldAfterBlock(a, b, name, content);
    UnfoldAfterBlock(a, "", name, content);
    assert a + close + "" == a + close;
    DropEnd(a, close, b, e);
    DropEnd(a, close, b, i);
    BlockIs(name, content);
    var head := (a + close)[..i] + Block(name, content);
    Regroup2(head, if e <= |a| then Rewrite(a[e..] + close, name, content) else "", Rewrite(b, name, content));
  }

  lemma UnfoldAfterBlock(a: string, b: string, name: string, content: string)
    requires '<' !in name && Find(a, OpenMarker(name)).Some?
    ensures var doc, i, e := a + CloseMarker(name) + b, Find(a, OpenMarker(name)).value, BlockEnd(a, name);
            && i < e <= |doc|
            && Rewrite(doc, name, content) == doc[..i] + Block(name, content) + Rewrite(doc[e..], name, content)
  {
    hide OpenMarker, CloseMarker, Find, FindBlock, OccursAt, Free, BlockEnd, Block;
    BlockEndsByClose(a, name, b);
  }

  lemma Regroup2(a: string, b: string, c: string)
    ensures a + (b + c) == a + b + c
  {
  }

  /** Content with a close marker leaves a rest behind for each block. */
  lemma {:induction false} RestsRemain(doc: string, name: string, c1: string, c2: string)
    requires '<' !in name && Find(c1, CloseMarker(name)).Some?
    ensures |Rewrite(Rewrite(doc, name, c1), name, c2)| >= |Rewrite(doc, name, c2)|
    ensures FindBlock(doc, name).Some? ==> |Rewrite(Rewrite(doc, name, c1), name, c2)| > |Rewrite(doc, name, c2)|
    decreases |doc|
  {
    var b := FindBlock(doc, name);
    if b.Some? {
      var before, tail := doc[..b.value.0], doc[b.value.1..];
      PrefixFree(doc, OpenMarker(name), b.value.0);
      hide OpenMarker, CloseMarker, Find, FindBlock, OccursAt, Block;
      var again := Rewrite(tail, name, c1);
      RestsRemain(tail, name, c1, c2);
      AfterFirstClose(before, name, c1, c2, again);
    }
  }

  lemma AfterFirstClose(before: string, name: string, c1: string, c2: string, again: string)
    requires '<' !in name && Find(before, OpenMarker(name)).None? && Find(c1, CloseMarker(name)).Some?
    ensures |Rewrite(before + Block(name, c1) + again, name, c2)|
            > |before| + |Block(name, c2)| + |Rewrite(again, name, c2)|
  {
    hide OpenMarker, CloseMarker, Find, FindBlock, Rewrite, OccursAt, Block;
    var close := CloseMarker(name);
    MarkersNonEmpty(name);
    var j := Find(c1, close).value;
    FindRange(c1, close);
    PrefixFree(c1, close, j);
    var x, y := c1[..j], c1[j + |close|..];
    FirstCloseSplits(before, name, c1, again, j);
    BlockFound(before, name, x, y + close + again);
    SplitAtClose(y, again, name, c2);
    RewriteFirst(before + Block(name, x) + (y + close + again), name, c2, before, Block(name, x), y + close + again);
  }

  lemma FirstCloseSplits(before: string, name: string, c1: string, again: string, j: nat)
    requires OccursAt(c1, CloseMarker(name), j)
    ensures before + Block(name, c1) + again
            == before + Block(name, c1[..j]) + (c1[j + |CloseMarker(name)|..] + CloseMarker(name) + again)
  {
    hide OpenMarker, CloseMarker;
    assert c1 == c1[..j] + CloseMarker(name) + c1[j + |CloseMarker(name)|..];
  }

  lemma RewriteFirst(doc: string, name: string, content: string, before: string, block: string, tail: string)
    requires doc == before + block + tail && FindBlock(doc, name) == Some((|before|, |before| + |block|))
    ensures Rewrite(doc, name, content) == before + Block(name, content) + Rewrite(tail, name, content)
  {
    assert doc[..|before|] == before && doc[|before| + |block|..] == tail;
    hide Block, FindBlock;
  }

  /** Injecting twice is injecting the second content alone, exactly if the first is free of the close marker. */
  lemma LastWriteWinsIff(doc: string, name: string, c1: string, c2: string)
    requires '<' !in name && FindBlock(doc, name).Some?
    ensures Rewrite(Rewrite(doc, name, c1), name, c2) == Rewrite(doc, name, c2) <==> Free(c1, CloseMarker(name))
  {
    hide Rewrite, FindBlock, OpenMarker, CloseMarker;
    MarkersNonEmpty(name);
    if Find(c1, CloseMarker(name)).None? {
      RewriteTwice(doc, name, c1, c2);
    } else {
      RestsRemain(doc, name, c1, c2);
    }
  }

  /** The same through `inject`, which fails exactly when there is no open marker. */
  lemma InjectTwice(doc: string, name: string, c1: string, c2: string)
    requires '<' !in name && Free(c1, CloseMarker(name))
    ensures Inject(doc, name, c1).Err? <==> Free(doc, OpenMarker(name))
    ensures Inject(doc, name, c1).Err? ==> Inject(doc, name, c1) == Err(OpenMarker(name))
    ensures Inject(doc, name, c1).Ok? ==>
              && Inject(doc, name, c1).value ==
                 Joined(Outside(doc, name), OpenMarker(name) + "\n" + c1 + CloseMarker(name))
              && Inject(Inject(doc, name, c1).value, name, c2) == Inject(doc, name, c2)
  {
    hide OpenMarker, CloseMarker, OccursAt;
    MarkersNonEmpty(name);
    RewriteTwice(doc, name, c1, c2);
    RewriteIsJoined(doc, name, c1);
    var b := FindBlock(doc, name);
    if b.Some? {
      var before := doc[..b.value.0];
      PrefixFree(doc, OpenMarker(name), b.value.0);
      BlockFound(before, name, c1, Rewrite(doc[b.value.1..], name, c1));
    }
    hide Find, Joined, Outside, Rewrite, FindBlock;
  }

  /** A block is from the first open marker to the first close marker after it; there is none exactly without such. */
  lemma FirstBlockExactly(doc: string, name: string)
    ensures var open, close, f := OpenMarker(name), CloseMarker(name), FindBlock(doc, name);
            && (f.Some? ==>
                  var (i, j) := f.value;
                  && OccursAt(doc, open, i) && (forall k :: OccursAt(doc, open, k) ==> i <= k)
                  && OccursAt(doc, close, j - |close|) && i + |open| <= j - |close|
                  && (forall k :: OccursAt(doc, close, k) && i + |open| <= k ==> j - |close| <= k))
            && (f.None? ==> forall i, k :: OccursAt(doc, open, i) && OccursAt(doc, close, k) ==> k < i + |open|)
  {
    hide OpenMarker, CloseMarker, Find, OccursAt;
    MarkersNonEmpty(name);
    var open, close := OpenMarker(name), CloseMarker(name);
    var x := Find(doc, open);
    if x.Some? {
      FindRange(doc, open);
      var from := x.value + |open|;
      FindRange(doc[from..], close);
      forall k | from <= k ensures OccursAt(doc, close, k) <==> OccursAt(doc[from..], close, k - from) {
        OccursIn(doc, close, k, from);
      }
    }
  }
}
