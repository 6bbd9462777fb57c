/**
 `maskAPIKey` of cmd/list.go. Go's `len` and slicing count bytes, so the key
 is modelled as a byte string.
 */
module Masking {

  newtype byte = x: int | 0 <= x < 256

  /** The byte of '*'. */
  const Star: byte := 42

  function Stars(n: nat): (r: seq<byte>)
    ensures |r| == n && forall i :: 0 <= i < n ==> r[i] == Star
  {
    seq(n, _ => Star)
  }

  /**
   A key of at most eight bytes is hidden entirely; a longer one keeps its
   first four and last four bytes and hides the rest, one '*' per byte.
   */
  function MaskApiKey(key: seq<byte>): (r: seq<byte>)
    ensures |r| == |key|
    ensures |key| <= 8 ==> forall i :: 0 <= i < |r| ==> r[i] == Star
    ensures |key| > 8 ==> r[..4] == key[..4] && r[|r| - 4..] == key[|key| - 4..]
    ensures |key| > 8 ==> forall i :: 4 <= i < |key| - 4 ==> r[i] == Star
  {
    if |key| <= 8 then Stars(|key|)
    else key[..4] + Stars(|key| - 8) + key[|key| - 4..]
  }

  /**
   The mask reveals nothing but the length and, for long keys, the two ends:
   keys that agree on those get the same mask.
   */
  lemma MaskRevealsOnlyEnds(a: seq<byte>, b: seq<byte>)
    requires |a| == |b|
    requires |a| > 8 ==> a[..4] == b[..4] && a[|a| - 4..] == b[|b| - 4..]
    ensures MaskApiKey(a) == MaskApiKey(b)
  {
    var ma := MaskApiKey(a);
    var mb := MaskApiKey(b);
    forall i | 0 <= i < |ma|
      ensures ma[i] == mb[i]
    {
      if |a| > 8 {
        if i < 4 {
          assert ma[i] == ma[..4][i] && mb[i] == mb[..4][i];
        } else if i >= |a| - 4 {
          assert ma[i] == ma[|ma| - 4..][i - (|a| - 4)];
          assert mb[i] == mb[|mb| - 4..][i - (|b| - 4)];
        }
      }
    }
  }

  /** Masking a masked key changes nothing. */
  lemma MaskIdempotent(key: seq<byte>)
    ensures MaskApiKey(MaskApiKey(key)) == MaskApiKey(key)
  {
    var m := MaskApiKey(key);
    var mm := MaskApiKey(m);
    forall i | 0 <= i < |m|
      ensures mm[i] == m[i]
    {
      if |m| > 8 {
        if i < 4 {
          assert mm[i] == mm[..4][i] && m[i] == m[..4][i];
        } else if i >= |m| - 4 {
          assert mm[i] == mm[|mm| - 4..][i - (|m| - 4)];
          assert m[i] == m[|m| - 4..][i - (|m| - 4)];
        }
      }
    }
  }
}
