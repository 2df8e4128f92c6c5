/**
 * Section flattening (`get_buffered_sections`): each lot is buffered by the
 * given offset; an empty result is dropped, a multi-polygon contributes its
 * pieces in their own order, and anything else contributes itself.
 */
module Sections {
  import opened Geometry

  /** What one buffered lot contributes. */
  function Pieces(k: Kernel, g: Region): seq<Region> {
    if k.isEmpty(g) then []
    else if k.kind(g) == MultiPolygonKind then k.parts(g)
    else [g]
  }

  /** The flattened sections of the lots, in input order. */
  function Sections(k: Kernel, lots: seq<Region>, offset: real): seq<Region> {
    if lots == [] then []
    else Sections(k, lots[..|lots| - 1], offset) + Pieces(k, k.buffer(lots[|lots| - 1], offset))
  }

  /** No section is empty (given that multi-polygon parts are non-empty). */
  lemma {:induction false} SectionsNonEmpty(k: Kernel, lots: seq<Region>, offset: real)
    requires PartsLaw(k)
    ensures forall t :: 0 <= t < |Sections(k, lots, offset)| ==> !k.isEmpty(Sections(k, lots, offset)[t])
  {
    if lots != [] {
      var init := lots[..|lots| - 1];
      var prev := Sections(k, init, offset);
      var last := Pieces(k, k.buffer(lots[|lots| - 1], offset));
      SectionsNonEmpty(k, init, offset);
      var all := prev + last;
      forall t | 0 <= t < |all| ensures !k.isEmpty(all[t]) {
        if t >= |prev| {
          assert all[t] == last[t - |prev|];
        } else {
          assert all[t] == prev[t];
        }
      }
    }
  }

  /** Flattening distributes over concatenation: order is kept, and each lot contributes its own pieces. */
  lemma {:induction false} SectionsAppend(k: Kernel, a: seq<Region>, b: seq<Region>, offset: real)
    ensures Sections(k, a + b, offset) == Sections(k, a, offset) + Sections(k, b, offset)
    decreases |b|
  {
    if b == [] {
      assert a + b == a;
    } else {
      var b' := b[..|b| - 1];
      assert (a + b)[..|a + b| - 1] == a + b';
      assert (a + b)[|a + b| - 1] == b[|b| - 1];
      SectionsAppend(k, a, b', offset);
    }
  }

  /** A single lot contributes exactly its pieces; so a lot with an empty buffer contributes nothing. */
  lemma SectionsOne(k: Kernel, lot: Region, offset: real)
    ensures Sections(k, [lot], offset) == Pieces(k, k.buffer(lot, offset))
    ensures k.isEmpty(k.buffer(lot, offset)) ==> Sections(k, [lot], offset) == []
  {
    assert [lot][..0] == [];
  }

  /** `get_buffered_sections(collection, buffer)`. */
  method GetBufferedSections(k: Kernel, collection: seq<Region>, offset: real) returns (sections: seq<Region>)
    ensures sections == Sections(k, collection, offset)
  {
    sections := [];
    var i := 0;
    while i < |collection|
      invariant 0 <= i <= |collection|
      invariant sections == Sections(k, collection[..i], offset)
    {
      var buffered := k.buffer(collection[i], offset);
      assert collection[..i + 1][..i] == collection[..i];
      if k.isEmpty(buffered) {
      } else if k.kind(buffered) == MultiPolygonKind {
        var parts := k.parts(buffered);
        ghost var before := sections;
        var m := 0;
        while m < |parts|
          invariant 0 <= m <= |parts|
          invariant sections == before + parts[..m]
        {
          assert parts[..m + 1] == parts[..m] + [parts[m]];
          sections := sections + [parts[m]];
          m := m + 1;
        }
        assert parts[..|parts|] == parts;
      } else {
        sections := sections + [buffered];
      }
      i := i + 1;
    }
    assert collection[..|collection|] == collection;
  }
}
