/**
 * How the preview walks a container of blocks: every block is handed to a
 * reader together with a number, and the reader may or may not yield an
 * entry. The preview passes each block's 1-based position in the
 * container; the numbering the form shows would pass the block's own
 * creation number instead. Both are stated here for any reader.
 */
module Listing {
  import opened Wrappers
  import opened Registry

  /** What each block yields when it is read at its 1-based position. */
  function Readings<T>(read: (Block, nat) -> Option<T>, bs: seq<Block>): (rs: seq<Option<T>>)
    ensures |rs| == |bs|
  {
    seq(|bs|, i requires 0 <= i < |bs| => read(bs[i], i + 1))
  }

  /** What each block yields when it is read at its own creation number. */
  function NumberedReadings<T>(read: (Block, nat) -> Option<T>, bs: seq<Block>): (rs: seq<Option<T>>)
    ensures |rs| == |bs|
  {
    seq(|bs|, i requires 0 <= i < |bs| => read(bs[i], bs[i].id))
  }

  lemma ReadingsPrefix<T>(read: (Block, nat) -> Option<T>, bs: seq<Block>, j: nat)
    requires j <= |bs|
    ensures Readings(read, bs[..j]) == Readings(read, bs)[..j]
  {
  }

  /** The entries of the first i + 1 blocks are those of the first i, then what block i yields. */
  lemma EntriesStep<T>(read: (Block, nat) -> Option<T>, bs: seq<Block>, i: nat)
    requires i < |bs|
    ensures Present(Readings(read, bs[..i + 1])) == Present(Readings(read, bs[..i])) + OptList(read(bs[i], i + 1))
  {
    var rs := Readings(read, bs);
    ReadingsPrefix(read, bs, i + 1);
    ReadingsPrefix(read, bs, i);
    PresentStep(rs, i);
  }

  /** Blocks after index j that yield nothing at their positions leave the entries of the first j. */
  lemma SilentSuffix<T>(read: (Block, nat) -> Option<T>, bs: seq<Block>, j: nat)
    requires j <= |bs|
    requires forall m :: j <= m < |bs| ==> read(bs[m], m + 1).None?
    ensures Present(Readings(read, bs)) == Present(Readings(read, bs[..j]))
  {
    var rs := Readings(read, bs);
    PresentEmptySuffix(rs, j);
    ReadingsPrefix(read, bs, j);
  }

  /** When every block sits at the position equal to its number, both numberings read alike. */
  lemma PositionsAreNumbers<T>(read: (Block, nat) -> Option<T>, bs: seq<Block>)
    requires forall j :: 0 <= j < |bs| ==> bs[j].id == j + 1
    ensures Readings(read, bs) == NumberedReadings(read, bs)
  {
  }

  /** Reading by number does not depend on where a block sits. */
  lemma NumberedAppend<T>(read: (Block, nat) -> Option<T>, xs: seq<Block>, ys: seq<Block>)
    ensures Present(NumberedReadings(read, xs + ys)) == Present(NumberedReadings(read, xs)) + Present(NumberedReadings(read, ys))
  {
    assert NumberedReadings(read, xs + ys) == NumberedReadings(read, xs) + NumberedReadings(read, ys);
    PresentAppend(NumberedReadings(read, xs), NumberedReadings(read, ys));
  }

  /** Some entry is yielded exactly when some block yields one at its position. */
  lemma EntriesNonEmpty<T>(read: (Block, nat) -> Option<T>, bs: seq<Block>)
    ensures Present(Readings(read, bs)) != [] <==> exists j :: 0 <= j < |bs| && read(bs[j], j + 1).Some?
  {
    var rs := Readings(read, bs);
    PresentEmpty(rs);
    assert forall j :: 0 <= j < |bs| ==> rs[j] == read(bs[j], j + 1);
  }

  /** A property of everything the blocks yield at their positions holds of every entry. */
  lemma EntriesSatisfy<T>(read: (Block, nat) -> Option<T>, bs: seq<Block>, p: T -> bool)
    requires forall j :: 0 <= j < |bs| && read(bs[j], j + 1).Some? ==> p(read(bs[j], j + 1).value)
    ensures forall x :: x in Present(Readings(read, bs)) ==> p(x)
  {
    var rs := Readings(read, bs);
    assert forall j :: 0 <= j < |rs| ==> rs[j] == read(bs[j], j + 1);
    PresentAll(rs, p);
  }

  /** A block that yields an entry at its own number makes the numbered entries non-empty. */
  lemma NumberedNonEmpty<T>(read: (Block, nat) -> Option<T>, bs: seq<Block>, j: nat)
    requires j < |bs| && read(bs[j], bs[j].id).Some?
    ensures Present(NumberedReadings(read, bs)) != []
  {
    var rs := NumberedReadings(read, bs);
    assert rs[j] == read(bs[j], bs[j].id);
    PresentEmpty(rs);
  }
}
