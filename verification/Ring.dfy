/**
 A circular buffer seen as a value: `buf` is the storage, `r` the offset of the next byte
 to consume, `w` the offset of the next byte to produce.  One cell is always left free, so
 `r == w` means empty.  The scull pipe and the shortprint output queue both use this shape.
 */
module Ring {

  newtype byte = x: int | 0 <= x < 256

  /** How many bytes are stored. */
  function Used(n: nat, r: nat, w: nat): (u: nat)
    requires r < n && w < n
    ensures u < n
  {
    if r <= w then w - r else n - r + w
  }

  /** The stored bytes, oldest first. */
  function Content<T>(buf: seq<T>, r: nat, w: nat): (c: seq<T>)
    requires r < |buf| && w < |buf|
    ensures |c| == Used(|buf|, r, w)
  {
    if r <= w then buf[r..w] else buf[r..] + buf[..w]
  }

  /** An offset that may stand one past the end is brought back to the start. */
  function Wrap(n: nat, x: nat): (y: nat)
    requires 0 < n && x <= n
    ensures y < n
  {
    if x == n then 0 else x
  }

  /** Bytes that can be consumed without wrapping. */
  function Readable(n: nat, r: nat, w: nat): (k: nat)
    requires r < n && w < n
    ensures r + k <= n && k <= Used(n, r, w)
    ensures k == 0 <==> r == w
  {
    if r <= w then w - r else n - r
  }

  /** Bytes that can be produced without wrapping and without filling the spare cell. */
  function Writable(n: nat, r: nat, w: nat): (k: nat)
    requires r < n && w < n
    ensures w + k <= n && Used(n, r, w) + k < n
    ensures k == 0 <==> Used(n, r, w) == n - 1
  {
    if w < r then r - w - 1 else if r == 0 then n - 1 - w else n - w
  }

  /** `buf` with `data` stored from offset `at` on. */
  function Splice<T>(buf: seq<T>, at: nat, data: seq<T>): (s: seq<T>)
    requires at + |data| <= |buf|
    ensures |s| == |buf|
    ensures s[at..at + |data|] == data
    ensures forall i :: 0 <= i < at || at + |data| <= i < |buf| ==> s[i] == buf[i]
  {
    buf[..at] + data + buf[at + |data|..]
  }

  function Min(a: int, b: int): (m: int)
    ensures m <= a && m <= b && (m == a || m == b)
  {
    if a <= b then a else b
  }

  lemma ModOnce(x: nat, n: nat)
    requires 0 < n && x < 2 * n
    ensures x % n == if x < n then x else x - n
  {
    if x >= n {
      assert x == 1 * n + (x - n);
    }
  }

  lemma Regroup<T>(a: seq<T>, b: seq<T>, c: seq<T>)
    ensures a + (b + c) == (a + b) + c
  {
  }

  lemma SplitAt<T>(a: seq<T>, k: nat)
    requires k <= |a|
    ensures a[..k] + a[k..] == a && a[k..][..|a| - k] == a[k..] && a[..|a|] == a
  {
  }

  /** Advancing the consumer by `k` removes exactly the `k` oldest bytes, those found at `r`. */
  lemma Consume<T>(buf: seq<T>, r: nat, w: nat, k: nat)
    requires r < |buf| && w < |buf| && k <= Readable(|buf|, r, w)
    ensures buf[r..r + k] == Content(buf, r, w)[..k]
    ensures Content(buf, Wrap(|buf|, r + k), w) == Content(buf, r, w)[k..]
  {
  }

  lemma SpliceOutside<T>(buf: seq<T>, at: nat, data: seq<T>, lo: nat, hi: nat)
    requires at + |data| <= |buf|
    ensures lo <= hi <= |buf| && (hi <= at || at + |data| <= lo) ==> Splice(buf, at, data)[lo..hi] == buf[lo..hi]
    ensures lo <= |buf| && at + |data| <= lo ==> Splice(buf, at, data)[lo..] == buf[lo..]
    ensures hi <= at ==> Splice(buf, at, data)[..hi] == buf[..hi]
  {
  }

  lemma SpliceInside<T>(buf: seq<T>, at: nat, data: seq<T>, lo: nat)
    requires at + |data| <= |buf|
    ensures lo <= at ==> Splice(buf, at, data)[lo..at + |data|] == buf[lo..at] + data
    ensures Splice(buf, at, data)[..at + |data|] == buf[..at] + data
    ensures lo <= at && at + |data| == |buf| ==> Splice(buf, at, data)[lo..] == buf[lo..at] + data
  {
  }

  /** Storing `data` at the producer and advancing it appends `data` and disturbs nothing older. */
  lemma Produce<T>(buf: seq<T>, r: nat, w: nat, data: seq<T>)
    requires r < |buf| && w < |buf| && |data| <= Writable(|buf|, r, w)
    ensures Content(Splice(buf, w, data), r, Wrap(|buf|, w + |data|)) == Content(buf, r, w) + data
    ensures Content(Splice(buf, w, data), r, w) == Content(buf, r, w)
  {
    SpliceOutside(buf, w, data, r, |buf|);
    SpliceOutside(buf, w, data, r, w);
    SpliceInside(buf, w, data, r);
    SpliceInside(buf, w, data, 0);
    if w < r {
      Regroup(buf[r..], buf[..w], data);
    }
  }

  /** Once a stretch is free for the producer it stays free while the consumer advances. */
  lemma WritableGrows(n: nat, r: nat, w: nat)
    requires r < n && w < n && r != w
    ensures Writable(n, Wrap(n, r + 1), w) >= Writable(n, r, w)
    ensures Used(n, Wrap(n, r + 1), w) == Used(n, r, w) - 1
  {
  }
}
