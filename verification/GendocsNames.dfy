/** Two names injected into one document one after the other, as `main` does. */
module GendocsNames {
  import opened Wrappers
  import opened Gendocs

  predicate Proper(name: string)
  {
    '<' !in name && '>' !in name
  }

  /** Markers of which neither begins with the other. */
  predicate Apart(m: string, other: string)
  {
    StartsOnly(m) && StartsOnly(other) && !(m <= other) && !(other <= m)
  }

  predicate ApartFrom(m: string, name: string)
  {
    Apart(m, OpenMarker(name)) && Apart(m, CloseMarker(name))
  }

  lemma MarkersApart(a: string, b: string)
    requires Proper(a) && Proper(b) && a != b
    ensures ApartFrom(OpenMarker(a), b) && ApartFrom(CloseMarker(a), b)
  {
    MarkersStart(a);
    MarkersStart(b);
    NotPrefix("<!-- gendocs:", a, b);
    NotPrefix("<!-- gendocs:", b, a);
    NotPrefix("<!-- /gendocs:", a, b);
    NotPrefix("<!-- /gendocs:", b, a);
    hide StartsOnly;
  }

  /** The first '>' of a marker is its last character. */
  lemma NotPrefix(start: string, a: string, b: string)
    requires Proper(a) && Proper(b) && a != b
    ensures !(start + a + " -->" <= start + b + " -->")
  {
    var m, n := start + a + " -->", start + b + " -->";
    var k := |start| + |a| + 3;
    assert m[k] == '>';
    assert m[|start|..|start| + |a|] == a && n[|start|..|start| + |b|] == b;
    if |a| < |b| {
      assert n[k] == if |a| + 3 < |b| then b[|a| + 3] else " -->"[|a| + 3 - |b|];
      assert n[k] != '>';
    }
  }

  lemma SamePlace(s: string, m: string, other: string, k: int)
    requires OccursAt(s, m, k)
    ensures OccursAt(s, other, k) ==> m <= other || other <= m
  {
    if OccursAt(s, other, k) {
      assert |m| <= |other| ==> s[k..k + |other|][..|m|] == s[k..k + |m|];
      assert |other| <= |m| ==> s[k..k + |m|][..|other|] == s[k..k + |other|];
    }
  }

  lemma Clash(s: string, m: string, other: string, k: int)
    requires Apart(m, other) && OccursAt(s, m, k)
    ensures !OccursAt(s, other, k)
  {
    SamePlace(s, m, other, k);
    hide OccursAt, StartsOnly;
  }

  /** A marker that the inside of a block is free of occurs before the block or after it. */
  lemma NotInside(before: string, name: string, inner: string, rest: string, pat: string, k: int)
    requires ApartFrom(pat, name) && Free(inner, pat)
    requires OccursAt(before + (OpenMarker(name) + inner + CloseMarker(name)) + rest, pat, k)
    ensures OccursAt(before, pat, k) || k >= |before| + |OpenMarker(name) + inner + CloseMarker(name)|
  {
    hide OpenMarker, CloseMarker, StartsOnly, OccursAt;
    var open, close := OpenMarker(name), CloseMarker(name);
    var tail := inner + close + rest;
    Regroup(before, open, inner, close, rest);
    var doc := before + open + tail;
    NoStraddle(before, open, tail, pat, k);
    if k >= |before| + |open| {
      DropPrefix(before + open, tail);
      OccursIn(doc, pat, k, |before| + |open|);
      var i := k - |before| - |open|;
      NoStraddle(inner, close, rest, pat, i);
      if i == |inner| {
        MarkerAt(inner, close, rest);
        Clash(tail, pat, close, i);
      }
    } else if k == |before| {
      MarkerAt(before, open, tail);
      Clash(doc, pat, open, k);
    }
  }

  lemma NotInBlock(before: string, name: string, content: string, rest: string, pat: string, k: int)
    requires ApartFrom(pat, name) && Free(content, pat) && OccursAt(before + Block(name, content) + rest, pat, k)
    ensures OccursAt(before, pat, k) || k >= |before| + |Block(name, content)|
  {
    hide OpenMarker, CloseMarker, Find, StartsOnly, OccursAt, Block;
    BlockIs(name, content);
    FreeAfterNewline(content, pat);
    FindFree("\n" + content, pat);
    NotInside(before, name, "\n" + content, rest, pat, k);
  }

  lemma OccursRange(s: string, pat: string, k: int)
    requires OccursAt(s, pat, k)
    ensures 0 <= k && k + |pat| <= |s|
  {
  }

  lemma MarkerAt(before: string, marker: string, rest: string)
    ensures OccursAt(before + marker + rest, marker, |before|)
  {
    assert (before + marker + rest)[|before|..|before| + |marker|] == marker;
  }

  // ---- A document that one name has been injected into -----------------------

  ghost predicate Stable(doc: string, name: string, content: string)
  {
    Rewrite(doc, name, content) == doc
  }

  /** Its first block has the content already, and the rest is such a document. */
  lemma StableFirst(doc: string, name: string, content: string)
    requires '<' !in name && Free(content, CloseMarker(name)) && Stable(doc, name, content)
    ensures var f := FindBlock(doc, name);
            f.Some? ==>
              var before, rest := doc[..f.value.0], doc[f.value.1..];
              && doc == before + Block(name, content) + rest && f.value.1 == |before| + |Block(name, content)|
              && Find(before, OpenMarker(name)).None?
              && Stable(rest, name, content)
  {
    RewriteUnfolds(doc, name, content);
    var f := FindBlock(doc, name);
    if f.Some? {
      var before, again := doc[..f.value.0], Rewrite(doc[f.value.1..], name, content);
      PrefixFree(doc, OpenMarker(name), f.value.0);
      hide Rewrite, FindBlock, Find, OpenMarker, CloseMarker, OccursAt, Free, Block;
      BlockFound(before, name, content, again);
      assert doc == before + Block(name, content) + again;
      assert doc[f.value.1..] == again;
    }
  }

  /** The block search in what follows a part of the document finds no more than in the whole. */
  lemma NoBlockAfter(before: string, rest: string, name: string)
    requires FindBlock(before + rest, name).None?
    ensures FindBlock(rest, name).None?
  {
    hide OpenMarker, CloseMarker, Find, OccursAt;
    var open, close, doc := OpenMarker(name), CloseMarker(name), before + rest;
    MarkersNonEmpty(name);
    DropPrefix(before, rest);
    var i := Find(rest, open);
    if i.Some? {
      FindRange(rest, open);
      OccursIn(doc, open, |before| + i.value, |before|);
      var x := Find(doc, open).value;
      FindRange(doc, open);
      var j := Find(rest[i.value + |open|..], close);
      if j.Some? {
        var at := |before| + i.value + |open|;
        assert doc[at..] == rest[i.value + |open|..];
        OccursIn(doc, close, at + j.value, at);
        OccursIn(doc, close, at + j.value, x + |open|);
      }
    }
  }

  /** What follows a marker of another name is such a document too. */
  lemma {:induction false} StableAfter(before: string, marker: string, rest: string, name: string, content: string)
    requires '<' !in name && Free(content, CloseMarker(name)) && Free(content, marker) && ApartFrom(marker, name)
    requires Stable(before + marker + rest, name, content)
    ensures Stable(rest, name, content)
    decreases |before|
  {
    hide OpenMarker, CloseMarker, Find, FindBlock, OccursAt, Free, Block, Rewrite, StartsOnly;
    var doc := before + marker + rest;
    StableFirst(doc, name, content);
    var f := FindBlock(doc, name);
    if f.None? {
      NoBlockAfter(before + marker, rest, name);
      RewriteUnfolds(rest, name, content);
    } else {
      MarkerAt(before, marker, rest);
      NotInBlock(doc[..f.value.0], name, content, doc[f.value.1..], marker, |before|);
      if |before| >= f.value.1 {
        assert doc[f.value.1..] == before[f.value.1..] + marker + rest;
        StableAfter(before[f.value.1..], marker, rest, name, content);
      } else {
        OccursRange(doc[..f.value.0], marker, |before|);
        StableTail(doc, before + marker, rest, name, content);
      }
    }
  }

  lemma StableTail(doc: string, before: string, rest: string, name: string, content: string)
    requires doc == before + rest && Stable(doc, name, content) && FindBlock(doc, name).Some?
    requires |before| <= FindBlock(doc, name).value.0
    ensures Stable(rest, name, content)
  {
    MarkersNonEmpty(name);
    hide OpenMarker, CloseMarker, Rewrite, OccursAt;
    NoBlockBefore(before, rest, name, content);
    DropPrefix(before, Rewrite(rest, name, content));
    DropPrefix(before, rest);
  }

  // ---- Both names ------------------------------------------------------------

  /** Content of `own` that ends no block of its own and has no marker of `other`. */
  ghost predicate Clean(content: string, own: string, other: string)
  {
    Free(content, CloseMarker(own)) && Free(content, OpenMarker(other)) && Free(content, CloseMarker(other))
  }

  ghost predicate Fit(a: string, ca: string, b: string, cb: string)
  {
    Proper(a) && Proper(b) && a != b && Clean(ca, a, b) && Clean(cb, b, a)
  }

  /** A marker of another name that is nowhere is nowhere after an injection. */
  lemma {:induction false} FreeKept(doc: string, name: string, content: string, pat: string)
    requires ApartFrom(pat, name) && Free(content, pat) && Free(doc, pat)
    ensures Free(Rewrite(doc, name, content), pat)
    decreases |doc|
  {
    RewriteUnfolds(doc, name, content);
    var f := FindBlock(doc, name);
    if f.Some? {
      var before, tail := doc[..f.value.0], doc[f.value.1..];
      FreeSlices(doc, pat, f.value.0, f.value.1);
      FreeKept(tail, name, content, pat);
      FreeJoined(before, name, content, Rewrite(tail, name, content), pat);
    }
    hide Rewrite, FindBlock, Free, Block, ApartFrom;
  }

  lemma FreeJoined(before: string, name: string, content: string, rest: string, pat: string)
    requires ApartFrom(pat, name) && Free(content, pat)
    ensures Free(before + Block(name, content) + rest, pat) <==> Free(before, pat) && Free(rest, pat)
  {
    hide OccursAt, Block, ApartFrom;
    var head, doc := before + Block(name, content), before + Block(name, content) + rest;
    DropPrefix(head, rest);
    assert doc[..|before|] == before;
    if Free(doc, pat) {
      FreeSlices(doc, pat, |before|, |head|);
    }
    if Free(before, pat) && Free(rest, pat) {
      forall k ensures !OccursAt(doc, pat, k) {
        if OccursAt(doc, pat, k) {
          NotInBlock(before, name, content, rest, pat, k);
          OccursIn(doc, pat, k, |head|);
        }
      }
    }
  }

  lemma FreeSlices(doc: string, pat: string, i: nat, j: nat)
    requires Free(doc, pat) && i <= |doc| && j <= |doc|
    ensures Free(doc[..i], pat) && Free(doc[j..], pat)
  {
    forall k ensures !OccursAt(doc[..i], pat, k) && !OccursAt(doc[j..], pat, k) {
      if OccursAt(doc[..i], pat, k) { OccursInPrefix(doc, pat, i, k); }
      if OccursAt(doc[j..], pat, k) { OccursIn(doc, pat, j + k, j); }
    }
    hide OccursAt;
  }

  /** Where the first block begins and ends. */
  lemma BlockEnds(doc: string, name: string)
    ensures var f := FindBlock(doc, name);
            f.Some? ==>
              var end := f.value.1 - |CloseMarker(name)|;
              && Find(doc, OpenMarker(name)) == Some(f.value.0)
              && f.value.0 + |OpenMarker(name)| <= end
              && doc == doc[..end] + CloseMarker(name) + doc[f.value.1..]
  {
    hide Find, OpenMarker, CloseMarker;
    MarkersNonEmpty(name);
    var f := FindBlock(doc, name);
    if f.Some? {
      var from := f.value.0 + |OpenMarker(name)|;
      var end := f.value.1 - |CloseMarker(name)|;
      OccursIn(doc, CloseMarker(name), end, from);
      assert doc[end..f.value.1] == CloseMarker(name);
    }
  }

  lemma OccursBefore(doc: string, pat: string, i: nat, k: int)
    requires i <= |doc|
    ensures OccursAt(doc[..i], pat, k) ==> OccursAt(doc, pat, k) && 0 <= k && k + |pat| <= i
  {
    if OccursAt(doc[..i], pat, k) {
      OccursInPrefix(doc, pat, i, k);
    }
  }

  /** A block of `b` comes first: no block of `a` begins before its end. */
  lemma OtherFirst(doc: string, a: string, ca: string, b: string, cb: string)
    requires Fit(a, ca, b, cb) && FindBlock(doc, b).Some?
    requires Find(doc, OpenMarker(a)).None? || Find(doc, OpenMarker(a)).value > FindBlock(doc, b).value.0
    requires Stable(Rewrite(doc[FindBlock(doc, b).value.1..], b, cb), a, ca)
    ensures Stable(Rewrite(doc, b, cb), a, ca)
  {
    var open, i := OpenMarker(a), FindBlock(doc, b).value.0;
    var head, again := doc[..i] + Block(b, cb), Rewrite(doc[FindBlock(doc, b).value.1..], b, cb);
    RewriteUnfolds(doc, b, cb);
    MarkersNonEmpty(a);
    MarkersApart(a, b);
    hide OpenMarker, CloseMarker, Find, FindBlock, OccursAt, Rewrite, StartsOnly, ApartFrom, Block;
    forall k | OccursAt(head + again, open, k) ensures |head| <= k {
      NotInBlock(doc[..i], b, cb, again, open, k);
      OccursBefore(doc, open, i, k);
    }
    NoBlockBefore(head, again, a, ca);
  }

  /** A block of `a` comes first: no block of `b` begins before its end. */
  lemma OwnFirst(doc: string, a: string, ca: string, b: string, cb: string)
    requires Fit(a, ca, b, cb) && Stable(doc, a, ca) && FindBlock(doc, a).Some?
    requires Find(doc, OpenMarker(b)).Some? && FindBlock(doc, a).value.0 <= Find(doc, OpenMarker(b)).value
    requires Stable(Rewrite(doc[FindBlock(doc, a).value.1..], b, cb), a, ca)
    ensures Stable(Rewrite(doc, b, cb), a, ca)
  {
    hide OpenMarker, CloseMarker, Find, FindBlock, OccursAt, Rewrite, ApartFrom, Block;
    StableFirst(doc, a, ca);
    var f := FindBlock(doc, a).value;
    var before, rest := doc[..f.0], doc[f.1..];
    var head, again := before + Block(a, ca), Rewrite(rest, b, cb);
    assert doc == head + rest;
    forall k | OccursAt(head + rest, OpenMarker(b), k) ensures |head| <= k {
      OtherAfter(before, rest, a, ca, b, k);
    }
    NoBlockBefore(head, rest, b, cb);
    BlockFound(before, a, ca, again);
    assert head + again == before + Block(a, ca) + again;
    RewriteFirst(head + again, a, ca, before, Block(a, ca), again);
  }

  lemma OtherAfter(before: string, rest: string, a: string, ca: string, b: string, k: int)
    requires Proper(a) && Proper(b) && a != b && Free(ca, OpenMarker(b))
    requires OccursAt(before + Block(a, ca) + rest, OpenMarker(b), k)
    requires var i := Find(before + Block(a, ca) + rest, OpenMarker(b)); i.Some? && |before| <= i.value
    ensures k >= |before| + |Block(a, ca)|
  {
    MarkersNonEmpty(b);
    MarkersApart(b, a);
    hide OpenMarker, CloseMarker, ApartFrom, Block, OccursAt, Free;
    NotInBlock(before, a, ca, rest, OpenMarker(b), k);
    assert (before + Block(a, ca) + rest)[..|before|] == before;
    OccursBefore(before + Block(a, ca) + rest, OpenMarker(b), |before|, k);
    hide Find;
  }

  /** An open marker of `a` that is never closed comes first: it stays so. */
  lemma OpenLeft(doc: string, a: string, ca: string, b: string, cb: string)
    requires Fit(a, ca, b, cb) && FindBlock(doc, a).None? && Find(doc, OpenMarker(a)).Some?
    requires Find(doc, OpenMarker(b)).Some? && Find(doc, OpenMarker(a)).value <= Find(doc, OpenMarker(b)).value
    ensures Stable(Rewrite(doc, b, cb), a, ca)
  {
    MarkersNonEmpty(a);
    MarkersApart(a, b);
    hide OpenMarker, CloseMarker, Find, OccursAt, Rewrite, Block, StartsOnly, ApartFrom;
    var open, close, x := OpenMarker(a), CloseMarker(a), Find(doc, OpenMarker(a)).value;
    FindRange(doc, open);
    PrefixFree(doc, open, x);
    var text, rest := doc[..x], doc[x + |open|..];
    FindFree(rest, close);
    OccursIs(doc, open, x);
    hide FindBlock;
    forall k | OccursAt(text + open + rest, OpenMarker(b), k) ensures |text + open| <= k {
      OtherAfterOpen(text, rest, a, b, k);
    }
    NoBlockBefore(text + open, rest, b, cb);
    FreeKept(rest, b, cb, close);
    OpenOnly(text, a, Rewrite(rest, b, cb));
    RewriteUnfolds(text + open + Rewrite(rest, b, cb), a, ca);
  }

  lemma OtherAfterOpen(before: string, rest: string, a: string, b: string, k: int)
    requires Proper(a) && Proper(b) && a != b && OccursAt(before + OpenMarker(a) + rest, OpenMarker(b), k)
    requires var i := Find(before + OpenMarker(a) + rest, OpenMarker(b)); i.Some? && |before| <= i.value
    ensures k >= |before| + |OpenMarker(a)|
  {
    MarkersNonEmpty(b);
    MarkersApart(a, b);
    hide OpenMarker, CloseMarker, OccursAt, StartsOnly;
    var doc := before + OpenMarker(a) + rest;
    NoStraddle(before, OpenMarker(a), rest, OpenMarker(b), k);
    MarkerAt(before, OpenMarker(a), rest);
    Clash(doc, OpenMarker(a), OpenMarker(b), |before|);
    assert doc[..|before|] == before;
    OccursBefore(doc, OpenMarker(b), |before|, k);
    hide Find;
  }

  lemma OccursIs(s: string, pat: string, k: nat)
    requires OccursAt(s, pat, k)
    ensures s == s[..k] + pat + s[k + |pat|..]
  {
  }

  lemma OpenOnly(before: string, name: string, tail: string)
    requires '<' !in name && Find(before, OpenMarker(name)).None? && Free(tail, CloseMarker(name))
    ensures FindBlock(before + OpenMarker(name) + tail, name).None?
  {
    hide OpenMarker, CloseMarker, Find, OccursAt, StartsOnly;
    MarkersNonEmpty(name);
    MarkersStart(name);
    FindBefore(before, OpenMarker(name), tail, OpenMarker(name));
    DropPrefix(before + OpenMarker(name), tail);
    FindFree(tail, CloseMarker(name));
  }

  /** Injecting `b` keeps what injecting `a` achieved. */
  lemma {:induction false} StableKept(doc: string, a: string, ca: string, b: string, cb: string)
    requires Fit(a, ca, b, cb) && Stable(doc, a, ca)
    ensures Stable(Rewrite(doc, b, cb), a, ca)
    decreases |doc|
  {
    hide OpenMarker, CloseMarker, Find, FindBlock, OccursAt, Free, Rewrite, StartsOnly, Stable;
    RewriteUnfolds(doc, b, cb);
    MarkersApart(b, a);
    BlockEnds(doc, a);
    BlockEnds(doc, b);
    var x, f, g := Find(doc, OpenMarker(a)), FindBlock(doc, b), FindBlock(doc, a);
    if f.Some? {
      if x.None? || x.value > f.value.0 {
        var rest := doc[f.value.1..];
        StableAfter(doc[..f.value.1 - |CloseMarker(b)|], CloseMarker(b), rest, a, ca);
        StableKept(rest, a, ca, b, cb);
        OtherFirst(doc, a, ca, b, cb);
      } else if g.Some? {
        StableFirst(doc, a, ca);
        StableKept(doc[g.value.1..], a, ca, b, cb);
        OwnFirst(doc, a, ca, b, cb);
      } else {
        OpenLeft(doc, a, ca, b, cb);
      }
    }
  }

  /**
   Injecting both again changes nothing, whatever the document: blocks of the two names may lie
   in each other or overlap.
   */
  lemma BothTwice(doc: string, a: string, ca: string, b: string, cb: string)
    requires Fit(a, ca, b, cb)
    ensures var once := Rewrite(Rewrite(doc, a, ca), b, cb);
            Rewrite(once, a, ca) == once && Rewrite(Rewrite(once, a, ca), b, cb) == once
  {
    hide Rewrite, Free;
    RewriteTwice(doc, a, ca, ca);
    StableKept(Rewrite(doc, a, ca), a, ca, b, cb);
    RewriteTwice(Rewrite(doc, a, ca), b, cb, cb);
  }

  // ---- Through `main` --------------------------------------------------------

  /** `main`: the second injection goes to the file that the first one wrote. */
  function InjectBoth(doc: string, a: string, ca: string, b: string, cb: string): Result<string, string>
  {
    match Inject(doc, a, ca)
    case Err(e) => Err(e)
    case Ok(written) => Inject(written, b, cb)
  }

  /** A marker of another name that is left after an injection stood outside the blocks. */
  lemma {:induction false} LeftOutside(doc: string, name: string, content: string, pat: string)
    requires ApartFrom(pat, name) && Free(content, pat)
    ensures Free(Rewrite(doc, name, content), pat) <==> forall text :: text in Outside(doc, name) ==> Free(text, pat)
    decreases |doc|
  {
    RewriteUnfolds(doc, name, content);
    var f := FindBlock(doc, name);
    if f.Some? {
      var before, tail := doc[..f.value.0], doc[f.value.1..];
      LeftOutside(tail, name, content, pat);
      FreeJoined(before, name, content, Rewrite(tail, name, content), pat);
      assert Outside(doc, name) == [before] + Outside(tail, name);
    }
    hide Rewrite, FindBlock, Free, Block, ApartFrom;
  }

  /**
   A second run of `main` leaves the document as the first one wrote it exactly if after the first
   injection some open marker of `a` stands outside the blocks of `b`, and fails otherwise.
   */
  lemma MainTwiceIff(doc: string, a: string, ca: string, b: string, cb: string)
    requires Fit(a, ca, b, cb) && InjectBoth(doc, a, ca, b, cb).Ok?
    ensures var once := InjectBoth(doc, a, ca, b, cb).value;
            var outside := exists text :: text in Outside(Inject(doc, a, ca).value, b) && !Free(text, OpenMarker(a));
            InjectBoth(once, a, ca, b, cb) == if outside then Ok(once) else Err(OpenMarker(a))
  {
    var written := Rewrite(doc, a, ca);
    var once := Rewrite(written, b, cb);
    BothTwice(doc, a, ca, b, cb);
    MarkersApart(a, b);
    MarkersNonEmpty(a);
    MarkersNonEmpty(b);
    LeftOutside(written, b, cb, OpenMarker(a));
    FindFree(once, OpenMarker(a));
    OpenStays(written, b, cb);
    hide Rewrite, Outside, Find, Free, OpenMarker, ApartFrom;
  }

  lemma OpenStays(doc: string, name: string, content: string)
    requires Find(doc, OpenMarker(name)).Some?
    ensures Find(Rewrite(doc, name, content), OpenMarker(name)).Some?
  {
    var f := FindBlock(doc, name);
    RewriteUnfolds(doc, name, content);
    MarkersNonEmpty(name);
    if f.Some? {
      BlockIs(name, content);
      var again := Rewrite(doc[f.value.1..], name, content);
      hide Rewrite, FindBlock, OpenMarker, CloseMarker, Block, Find, OccursAt;
      MarkerAt(doc[..f.value.0], OpenMarker(name), "\n" + content + CloseMarker(name) + again);
      Regroup(doc[..f.value.0], OpenMarker(name), "\n" + content, CloseMarker(name), again);
      assert Rewrite(doc, name, content) ==
             doc[..f.value.0] + OpenMarker(name) + ("\n" + content + CloseMarker(name) + again);
    }
    FindFree(Rewrite(doc, name, content), OpenMarker(name));
  }

  /** With the only block of `a` inside that of `b` the second run fails. */
  lemma NestedFails(a: string, ca: string, b: string, cb: string)
    requires Fit(a, ca, b, cb)
    ensures var doc := OpenMarker(b) + Block(a, "") + CloseMarker(b);
            && InjectBoth(doc, a, ca, b, cb).Ok?
            && InjectBoth(InjectBoth(doc, a, ca, b, cb).value, a, ca, b, cb) == Err(OpenMarker(a))
  {
    MarkersApart(a, b);
    MarkersApart(b, a);
    MarkersNonEmpty(a);
    MarkersNonEmpty(b);
    var open, close := OpenMarker(b), CloseMarker(b);
    hide OpenMarker, CloseMarker, Find, FindBlock, OccursAt, Rewrite, StartsOnly, Apart, Block;
    var doc, written := open + Block(a, "") + close, open + Block(a, ca) + close;
    NestedWritten(a, ca, b);
    assert Find(doc, OpenMarker(a)).Some? && Rewrite(doc, a, ca) == written;
    NestedOutside(a, ca, b);
    LeftOutside(written, b, cb, OpenMarker(a));
    OpenStays(written, b, cb);
    FindFree(Rewrite(written, b, cb), OpenMarker(a));
  }

  lemma NestedWritten(a: string, ca: string, b: string)
    requires Proper(a) && Proper(b) && a != b
    ensures var doc := OpenMarker(b) + Block(a, "") + CloseMarker(b);
            && OpenMarker(a) != "" && Find(doc, OpenMarker(a)).Some?
            && Rewrite(doc, a, ca) == OpenMarker(b) + Block(a, ca) + CloseMarker(b)
  {
    var open, close := OpenMarker(b), CloseMarker(b);
    hide OpenMarker, CloseMarker, Find, OccursAt, StartsOnly, Apart, Block, Rewrite;
    MarkersNonEmpty(a);
    MarkersApart(a, b);
    OneMarker(open, OpenMarker(a));
    OneMarker(close, OpenMarker(a));
    FindFree(open, OpenMarker(a));
    FindFree(close, OpenMarker(a));
    NoneInEmpty(CloseMarker(a));
    var doc := open + Block(a, "") + close;
    BlockFound(open, a, "", close);
    assert Find(doc, OpenMarker(a)).Some?;
    RewriteFirst(doc, a, ca, open, Block(a, ""), close);
    RewriteUnfolds(close, a, ca);
  }

  lemma OneMarker(marker: string, pat: string)
    requires Apart(pat, marker)
    ensures Free(marker, pat)
  {
    assert "" + marker + "" == marker;
    forall k ensures !OccursAt(marker, pat, k) {
      if OccursAt(marker, pat, k) {
        NoStraddle("", marker, "", pat, k);
        OccursRange(marker, pat, k);
        MarkerAt("", marker, "");
        Clash(marker, pat, marker, k);
      }
    }
    hide OccursAt;
  }

  lemma NestedOutside(a: string, ca: string, b: string)
    requires Proper(a) && Proper(b) && a != b && Free(ca, CloseMarker(b))
    ensures var written := OpenMarker(b) + Block(a, ca) + CloseMarker(b);
            && OpenMarker(b) != "" && Find(written, OpenMarker(b)).Some?
            && Outside(written, b) == ["", ""]
  {
    var open, close := OpenMarker(b), CloseMarker(b);
    hide OpenMarker, CloseMarker, Find, OccursAt, StartsOnly, Block;
    MarkersNonEmpty(b);
    MarkersApart(b, a);
    var inner := Block(a, ca);
    NoneInEmpty(close);
    FreeJoined("", a, ca, "", close);
    assert "" + inner + "" == inner;
    FindFree(inner, close);
    OnlyBlock(inner, b);
    var written := open + inner + close;
    assert written[..0] == "" && written[|written|..] == "";
    hide FindBlock;
    OutsideEmpty(b);
  }

  /** A document that is one block. */
  lemma OnlyBlock(inner: string, name: string)
    requires '<' !in name && CloseMarker(name) != "" && Find(inner, CloseMarker(name)).None?
    ensures var doc := OpenMarker(name) + inner + CloseMarker(name); FindBlock(doc, name) == Some((0, |doc|))
  {
    hide OpenMarker, CloseMarker, Find, FindBlock, OccursAt, StartsOnly, Free;
    var open, close := OpenMarker(name), CloseMarker(name);
    MarkersNonEmpty(name);
    MarkersStart(name);
    var tail := inner + close;
    assert inner + close + "" == tail;
    FindBefore(inner, close, "", close);
    NoneInEmpty(open);
    FindFree("", open);
    FindBefore("", open, tail, open);
    assert open + inner + close == "" + open + tail;
    FindBlockIs(open + inner + close, name, "", tail);
  }

  lemma NoneInEmpty(pat: string)
    requires pat != ""
    ensures Free("", pat)
  {
  }

  lemma OutsideEmpty(name: string)
    ensures Outside("", name) == [""]
  {
  }
}
