/** Types and sequence facts shared by the other modules. */
module Basics {

  datatype Option<+T> = None | Some(value: T)

  newtype Byte = n: int | 0 <= n < 256

  type Bytes = seq<Byte>

  /** The pieces glued together in order. */
  function Concat(pieces: seq<Bytes>): Bytes {
    if pieces == [] then [] else pieces[0] + Concat(pieces[1..])
  }

  lemma {:induction false} ConcatSplit(pieces: seq<Bytes>, k: nat)
    requires k <= |pieces|
    ensures Concat(pieces) == Concat(pieces[..k]) + Concat(pieces[k..])
  {
    if k == 0 {
      assert pieces[0..] == pieces;
    } else {
      ConcatSplit(pieces[1..], k - 1);
      assert pieces[1..][..k - 1] == pieces[..k][1..];
      assert pieces[1..][k - 1..] == pieces[k..];
      AppendAssociates(pieces[0], Concat(pieces[..k][1..]), Concat(pieces[k..]));
    }
  }

  lemma AppendAssociates(a: Bytes, b: Bytes, c: Bytes)
    ensures (a + b) + c == a + (b + c)
  {
  }
}
