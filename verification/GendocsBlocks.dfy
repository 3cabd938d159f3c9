/** What an injection does to the blocks of another name. */
module GendocsBlocks {
  import opened Wrappers
  import opened Gendocs
  import opened GendocsNames

  /** The text of each block, markers included. */
  function Blocks(doc: string, name: string): seq<string>
    decreases |doc|
  {
    var b := FindBlock(doc, name);
    if b.None? then [] else [doc[b.value.0..b.value.1]] + Blocks(doc[b.value.1..], name)
  }

  ghost predicate NoneInBlocks(doc: string, name: string, pat: string)
  {
    forall block :: block in Blocks(doc, name) ==> Free(block, pat)
  }

  function RewriteEach(texts: seq<string>, name: string, content: string): (r: seq<string>)
    ensures |r| == |texts| && forall i :: 0 <= i < |r| ==> r[i] == Rewrite(texts[i], name, content)
  {
    if texts == [] then [] else [Rewrite(texts[0], name, content)] + RewriteEach(texts[1..], name, content)
  }

  /** A block that ends within a prefix is the first one of the prefix. */
  lemma BlockInPrefix(doc: string, name: string, n: nat)
    requires n <= |doc|
    ensures var f := FindBlock(doc, name); f.Some? && f.value.1 <= n ==> FindBlock(doc[..n], name) == f
    ensures FindBlock(doc, name).None? ==> FindBlock(doc[..n], name).None?
  {
    hide OpenMarker, CloseMarker, Find, OccursAt;
    var open, close, s := OpenMarker(name), CloseMarker(name), doc[..n];
    MarkersNonEmpty(name);
    BlockEnds(doc, name);
    BlockEnds(s, name);
    var f, g := FindBlock(doc, name), FindBlock(s, name);
    FindInPrefix(doc, open, n);
    var x := Find(doc, open);
    if x.Some? {
      FindRange(doc, open);
      var from := x.value + |open|;
      if from <= n {
        FindInPrefix(doc[from..], close, n - from);
        assert doc[from..][..n - from] == s[from..];
      }
    }
  }

  lemma FindInPrefix(doc: string, pat: string, n: nat)
    requires pat != "" && n <= |doc|
    ensures Find(doc[..n], pat).Some? ==> Find(doc, pat) == Find(doc[..n], pat)
    ensures Find(doc, pat).Some? && Find(doc, pat).value + |pat| <= n ==> Find(doc[..n], pat) == Find(doc, pat)
  {
    hide Find, OccursAt;
    var r, d := Find(doc[..n], pat), Find(doc, pat);
    if d.Some? {
      OccursPrefixIff(doc, pat, n, d.value);
    }
    if r.Some? {
      OccursPrefixIff(doc, pat, n, r.value);
      if d.Some? {
        OccursBefore(doc, pat, n, r.value);
      }
    }
    FindFree(doc[..n], pat);
    FindFree(doc, pat);
  }

  lemma OccursPrefixIff(doc: string, pat: string, n: nat, k: nat)
    requires n <= |doc|
    ensures OccursAt(doc[..n], pat, k) <==> OccursAt(doc, pat, k) && k + |pat| <= n
  {
    assert k + |pat| <= n ==> doc[..n][k..k + |pat|] == doc[k..k + |pat|];
  }

  lemma BlocksUnfold(doc: string, name: string)
    ensures var f := FindBlock(doc, name);
            Blocks(doc, name) ==
            if f.None? then [] else [doc[f.value.0..f.value.1]] + Blocks(doc[f.value.1..], name)
  {
    hide FindBlock;
  }

  lemma BlocksAfter(before: string, rest: string, name: string)
    requires forall k :: OccursAt(before + rest, OpenMarker(name), k) ==> |before| <= k
    ensures Blocks(before + rest, name) == Blocks(rest, name)
  {
    hide OccursAt, CloseMarker, OpenMarker, FindBlock, Blocks;
    BlockShifted(before, rest, name);
    BlocksUnfold(rest, name);
    BlocksUnfold(before + rest, name);
    var f := FindBlock(rest, name);
    if f.Some? {
      ShiftSlices(before, rest, f.value.1);
      assert (before + rest)[|before| + f.value.0..|before| + f.value.1] == rest[f.value.0..f.value.1];
    }
  }

  /** A marker of another name that is in no block stands before the first block or after it. */
  lemma MarkerPlace(u: string, m: string, v: string, name: string)
    requires ApartFrom(m, name) && FindBlock(u + m + v, name).Some? && NoneInBlocks(u + m + v, name, m)
    ensures var f := FindBlock(u + m + v, name).value; f.1 <= |u| || |u| + |m| <= f.0
  {
    hide OpenMarker, CloseMarker, Find, FindBlock, OccursAt, ApartFrom;
    var doc := u + m + v;
    var f := FindBlock(doc, name).value;
    var open, close := OpenMarker(name), CloseMarker(name);
    MarkersNonEmpty(name);
    BlockEnds(doc, name);
    FindOccurs(doc, open);
    var inner := doc[f.0 + |open|..f.1 - |close|];
    var block := doc[f.0..f.1];
    assert block == open + inner + close;
    BlocksUnfold(doc, name);
    assert block in Blocks(doc, name);
    assert inner == block[|open|..][..|inner|];
    FreeSlices(block, m, 0, |open|);
    FreeSlices(block[|open|..], m, |inner|, 0);
    assert doc == doc[..f.0] + (open + inner + close) + doc[f.1..];
    MarkerAt(u, m, v);
    NotInside(doc[..f.0], name, inner, doc[f.1..], m, |u|);
    OccursBefore(doc, m, f.0, |u|);
  }

  lemma FindOccurs(s: string, pat: string)
    requires pat != "" && Find(s, pat).Some?
    ensures var i := Find(s, pat).value; i + |pat| <= |s| && s[i..i + |pat|] == pat
  {
    hide Find;
  }

  /** The text before such a marker and the text after it are rewritten each on its own. */
  lemma {:induction false} SplitAround(u: string, m: string, v: string, name: string, content: string)
    requires ApartFrom(m, name) && NoneInBlocks(u + m + v, name, m)
    ensures Rewrite(u + m + v, name, content) == Rewrite(u, name, content) + m + Rewrite(v, name, content)
    ensures Blocks(u + m + v, name) == Blocks(u, name) + Blocks(v, name)
    decreases |u|
  {
    hide OpenMarker, CloseMarker, Find, FindBlock, OccursAt, ApartFrom, Free, Rewrite, Blocks, Block;
    var doc := u + m + v;
    var f := FindBlock(doc, name);
    RewriteUnfolds(u, name, content);
    BlocksUnfold(u, name);
    BlockInPrefix(doc, name, |u|);
    assert doc[..|u|] == u;
    if f.None? {
      RewriteUnfolds(doc, name, content);
      RewriteUnfolds(v, name, content);
      BlocksUnfold(doc, name);
      BlocksUnfold(v, name);
      NoBlockAfter(u + m, v, name);
    } else {
      MarkerPlace(u, m, v, name);
      if f.value.1 <= |u| {
        BlocksUnfold(doc, name);
        assert doc[f.value.1..] == u[f.value.1..] + m + v;
        SplitAround(u[f.value.1..], m, v, name, content);
        SplitStep(u, m, v, name, content);
      } else {
        SplitBehind(u, m, v, name, content);
      }
    }
  }

  lemma SplitStep(u: string, m: string, v: string, name: string, content: string)
    requires FindBlock(u + m + v, name) == FindBlock(u, name) && FindBlock(u, name).Some?
    requires var rest := u[FindBlock(u, name).value.1..];
             && Rewrite(rest + m + v, name, content) == Rewrite(rest, name, content) + m + Rewrite(v, name, content)
             && Blocks(rest + m + v, name) == Blocks(rest, name) + Blocks(v, name)
    ensures Rewrite(u + m + v, name, content) == Rewrite(u, name, content) + m + Rewrite(v, name, content)
    ensures Blocks(u + m + v, name) == Blocks(u, name) + Blocks(v, name)
  {
    hide FindBlock, Rewrite, Blocks, Block;
    var doc, f := u + m + v, FindBlock(u, name).value;
    RewriteUnfolds(u, name, content);
    BlocksUnfold(u, name);
    RewriteUnfolds(doc, name, content);
    BlocksUnfold(doc, name);
    assert doc[..f.0] == u[..f.0] && doc[f.0..f.1] == u[f.0..f.1] && doc[f.1..] == u[f.1..] + m + v;
  }

  lemma SplitBehind(u: string, m: string, v: string, name: string, content: string)
    requires FindBlock(u + m + v, name).Some? && |u| + |m| <= FindBlock(u + m + v, name).value.0
    ensures Rewrite(u + m + v, name, content) == Rewrite(u, name, content) + m + Rewrite(v, name, content)
    ensures Blocks(u + m + v, name) == Blocks(u, name) + Blocks(v, name)
  {
    hide OpenMarker, CloseMarker, FindBlock, OccursAt, Rewrite, Blocks;
    var doc := u + m + v;
    MarkersNonEmpty(name);
    BlockEnds(doc, name);
    BlockEnds(u, name);
    FindInPrefix(doc, OpenMarker(name), |u|);
    assert doc[..|u|] == u;
    if Find(u, OpenMarker(name)).Some? { FindRange(u, OpenMarker(name)); }
    RewriteUnfolds(u, name, content);
    BlocksUnfold(u, name);
    NoBlockBefore(u + m, v, name, content);
    BlocksAfter(u + m, v, name);
    hide Find;
  }

  lemma MarkerFirst(m: string, v: string, name: string, content: string)
    requires ApartFrom(m, name)
    ensures Rewrite(m + v, name, content) == m + Rewrite(v, name, content)
  {
    hide OpenMarker, CloseMarker, OccursAt, Rewrite;
    forall k | OccursAt(m + v, OpenMarker(name), k) ensures |m| <= k {
      assert "" + m + v == m + v;
      NoStraddle("", m, v, OpenMarker(name), k);
      MarkerAt("", m, v);
      Clash(m + v, m, OpenMarker(name), 0);
      OccursBefore(m + v, OpenMarker(name), 0, k);
      assert (m + v)[..0] == "";
    }
    hide StartsOnly;
    NoBlockBefore(m, v, name, content);
  }

  lemma {:induction false} MarkerLast(u: string, m: string, name: string, content: string)
    requires ApartFrom(m, name)
    ensures Rewrite(u + m, name, content) == Rewrite(u, name, content) + m
    decreases |u|
  {
    hide OpenMarker, CloseMarker, Find, FindBlock, OccursAt, ApartFrom, Rewrite, Block;
    var f := FindBlock(u + m, name);
    BlockInPrefix(u + m, name, |u|);
    assert (u + m)[..|u|] == u;
    RewriteUnfolds(u, name, content);
    RewriteUnfolds(u + m, name, content);
    if f.Some? {
      EndsBefore(u, m, name);
      assert (u + m)[f.value.1..] == u[f.value.1..] + m && (u + m)[..f.value.0] == u[..f.value.0];
      MarkerLast(u[f.value.1..], m, name, content);
    }
  }

  lemma EndsBefore(u: string, m: string, name: string)
    requires ApartFrom(m, name) && FindBlock(u + m, name).Some?
    ensures FindBlock(u + m, name).value.1 <= |u|
  {
    hide OpenMarker, CloseMarker, Find, FindBlock, OccursAt;
    var f, close := FindBlock(u + m, name).value, CloseMarker(name);
    BlockEnds(u + m, name);
    var end := f.1 - |close|;
    MarkerAt((u + m)[..end], close, (u + m)[f.1..]);
    assert u + m + "" == u + m;
    NoStraddle(u, m, "", close, end);
    MarkerAt(u, m, "");
    Clash(u + m, m, close, |u|);
    OccursBefore(u + m, close, |u|, end);
    assert (u + m)[..|u|] == u;
    hide StartsOnly;
  }

  /**
   If no block of `a` has a marker of `b` in it, injecting `a` keeps every block of `b` and all text between
   them in place, each rewritten on its own.
   */
  lemma {:induction false} OtherBlocks(doc: string, a: string, ca: string, b: string)
    requires Proper(a) && Proper(b) && a != b && Free(ca, OpenMarker(b)) && Free(ca, CloseMarker(b))
    requires NoneInBlocks(doc, a, OpenMarker(b)) && NoneInBlocks(doc, a, CloseMarker(b))
    ensures Blocks(Rewrite(doc, a, ca), b) == RewriteEach(Blocks(doc, b), a, ca)
    ensures Outside(Rewrite(doc, a, ca), b) == RewriteEach(Outside(doc, b), a, ca)
    decreases |doc|
  {
    hide OpenMarker, CloseMarker, Find, FindBlock, OccursAt, ApartFrom, Free, Rewrite, Blocks, Block;
    var f, after := FindBlock(doc, b), Rewrite(doc, a, ca);
    BlocksUnfold(doc, b);
    BlocksUnfold(after, b);
    if f.None? {
      NoBlockKept(doc, a, ca, b);
    } else {
      var s, block, t := doc[..f.value.0], doc[f.value.0..f.value.1], doc[f.value.1..];
      BlockKept(doc, a, ca, b);
      OtherBlocks(t, a, ca, b);
      var block' := Rewrite(block, a, ca);
      var s', t' := Rewrite(s, a, ca), Rewrite(t, a, ca);
      assert after[..|s'|] == s' && after[|s'|..|s'| + |block'|] == block' && after[|s'| + |block'|..] == t';
      assert Outside(doc, b) == [s] + Outside(t, b);
    }
  }

  lemma NoBlockKept(doc: string, a: string, ca: string, b: string)
    requires Proper(a) && Proper(b) && a != b && Free(ca, OpenMarker(b)) && Free(ca, CloseMarker(b))
    requires NoneInBlocks(doc, a, OpenMarker(b)) && FindBlock(doc, b).None?
    ensures FindBlock(Rewrite(doc, a, ca), b).None?
  {
    hide OpenMarker, CloseMarker, Find, OccursAt, ApartFrom, Rewrite, Blocks, Block, StartsOnly;
    MarkersNonEmpty(b);
    MarkersApart(b, a);
    var open, x := OpenMarker(b), Find(doc, OpenMarker(b));
    if x.None? {
      FindFree(doc, open);
      FreeKept(doc, a, ca, open);
      FindFree(Rewrite(doc, a, ca), open);
    } else {
      FindRange(doc, open);
      var s, rest := doc[..x.value], doc[x.value + |open|..];
      OccursIs(doc, open, x.value);
      PrefixFree(doc, open, x.value);
      FindFree(s, open);
      FindFree(rest, CloseMarker(b));
      hide FindBlock;
      SplitAround(s, open, rest, a, ca);
      FreeKept(s, a, ca, open);
      FreeKept(rest, a, ca, CloseMarker(b));
      FindFree(Rewrite(s, a, ca), open);
      OpenOnly(Rewrite(s, a, ca), b, Rewrite(rest, a, ca));
    }
  }

  lemma BlockKept(doc: string, a: string, ca: string, b: string)
    requires Proper(a) && Proper(b) && a != b && Free(ca, OpenMarker(b)) && Free(ca, CloseMarker(b))
    requires NoneInBlocks(doc, a, OpenMarker(b)) && NoneInBlocks(doc, a, CloseMarker(b)) && FindBlock(doc, b).Some?
    ensures var f := FindBlock(doc, b).value;
            var s, block, t := doc[..f.0], doc[f.0..f.1], doc[f.1..];
            && Rewrite(doc, a, ca) == Rewrite(s, a, ca) + Rewrite(block, a, ca) + Rewrite(t, a, ca)
            && FindBlock(Rewrite(doc, a, ca), b) ==
               Some((|Rewrite(s, a, ca)|, |Rewrite(s, a, ca)| + |Rewrite(block, a, ca)|))
            && NoneInBlocks(t, a, OpenMarker(b)) && NoneInBlocks(t, a, CloseMarker(b))
  {
    hide OpenMarker, CloseMarker, Find, FindBlock, OccursAt, ApartFrom, Rewrite, Blocks, Block, Free;
    var open, close, f := OpenMarker(b), CloseMarker(b), FindBlock(doc, b).value;
    MarkersNonEmpty(b);
    MarkersApart(b, a);
    InnerFree(doc, b);
    var s, inner, t := doc[..f.0], doc[f.0 + |open|..f.1 - |close|], doc[f.1..];
    assert doc == s + open + (inner + close + t);
    assert doc[f.0..f.1] == open + inner + close;
    hide NoneInBlocks;
    PiecesRewritten(s, inner, t, a, ca, b);
    FreeKept(s, a, ca, open);
    FreeKept(inner, a, ca, close);
    FindFree(Rewrite(s, a, ca), open);
    BlockAt(Rewrite(s, a, ca), b, Rewrite(inner, a, ca), Rewrite(t, a, ca));
  }

  lemma PiecesRewritten(s: string, inner: string, t: string, a: string, ca: string, b: string)
    requires Proper(a) && Proper(b) && a != b
    requires var doc := s + OpenMarker(b) + (inner + CloseMarker(b) + t);
             NoneInBlocks(doc, a, OpenMarker(b)) && NoneInBlocks(doc, a, CloseMarker(b))
    ensures var block, block' := OpenMarker(b) + inner + CloseMarker(b),
                OpenMarker(b) + Rewrite(inner, a, ca) + CloseMarker(b);
            && Rewrite(block, a, ca) == block'
            && Rewrite(s + OpenMarker(b) + (inner + CloseMarker(b) + t), a, ca) ==
               Rewrite(s, a, ca) + block' + Rewrite(t, a, ca)
    ensures NoneInBlocks(t, a, OpenMarker(b)) && NoneInBlocks(t, a, CloseMarker(b))
  {
    hide OpenMarker, CloseMarker, ApartFrom, Rewrite, Blocks, Free;
    var open, close := OpenMarker(b), CloseMarker(b);
    MarkersApart(b, a);
    SplitAround(s, open, inner + close + t, a, ca);
    SplitAround(inner, close, t, a, ca);
    MarkerFirst(open, inner + close, a, ca);
    MarkerLast(inner, close, a, ca);
    assert open + inner + close == open + (inner + close);
    Regroup(Rewrite(s, a, ca), open, Rewrite(inner, a, ca), close, Rewrite(t, a, ca));
  }

  lemma InnerFree(doc: string, name: string)
    requires FindBlock(doc, name).Some?
    ensures var open, close, f := OpenMarker(name), CloseMarker(name), FindBlock(doc, name).value;
            && f.0 + |open| <= f.1 - |close|
            && doc[f.0..f.1] == open + doc[f.0 + |open|..f.1 - |close|] + close
            && Free(doc[..f.0], open) && Free(doc[f.0 + |open|..f.1 - |close|], close)
  {
    MarkersNonEmpty(name);
    hide OpenMarker, CloseMarker, Find, OccursAt, Free;
    var open, close, f := OpenMarker(name), CloseMarker(name), FindBlock(doc, name).value;
    BlockEnds(doc, name);
    var from, end := f.0 + |open|, f.1 - |close|;
    assert Find(doc[from..], close) == Some(end - from);
    hide FindBlock;
    FindOccurs(doc, open);
    assert doc[end..f.1] == close;
    assert doc[f.0..f.1] == doc[f.0..from] + doc[from..end] + doc[end..f.1];
    FreeBefore(doc, open, f.0);
    FreeBefore(doc[from..], close, end - from);
    assert doc[from..][..end - from] == doc[from..end];
  }

  lemma FreeBefore(doc: string, pat: string, i: nat)
    requires pat != "" && Find(doc, pat) == Some(i)
    ensures i <= |doc| && Free(doc[..i], pat)
  {
    PrefixFree(doc, pat, i);
    FindFree(doc[..i], pat);
    hide Find;
  }

  /** Blocks of `b` without an open marker of `a` are left as they are. */
  lemma OtherBlocksUntouched(doc: string, a: string, ca: string, b: string)
    requires Proper(a) && Proper(b) && a != b && Free(ca, OpenMarker(b)) && Free(ca, CloseMarker(b))
    requires NoneInBlocks(doc, a, OpenMarker(b)) && NoneInBlocks(doc, a, CloseMarker(b))
    requires NoneInBlocks(doc, b, OpenMarker(a))
    ensures Blocks(Rewrite(doc, a, ca), b) == Blocks(doc, b)
  {
    OtherBlocks(doc, a, ca, b);
    var blocks := Blocks(doc, b);
    hide Blocks, Rewrite, OpenMarker, CloseMarker, Find, RewriteEach;
    forall i | 0 <= i < |blocks| ensures Rewrite(blocks[i], a, ca) == blocks[i] {
      assert blocks[i] in blocks;
      MarkersNonEmpty(a);
      FindFree(blocks[i], OpenMarker(a));
      RewriteUnfolds(blocks[i], a, ca);
    }
  }
}
