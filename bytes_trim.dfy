/**
 * Byte sequences and the NUL trim that `bytes.Trim(s, "\x00")` performs on
 * the kubeconfig payload: every leading and every trailing 0x00 byte is
 * removed, everything between the first and the last non-NUL byte is kept.
 */
module Bytes {

  newtype byte = b: int | 0 <= b < 256

  type Bytes = seq<byte>

  const NUL: byte := 0

  /** Every byte of `s` is 0x00. */
  predicate AllNul(s: Bytes) {
    forall i :: 0 <= i < |s| ==> s[i] == NUL
  }

  /** `s` neither starts nor ends with 0x00 (the empty sequence qualifies). */
  predicate Unpadded(s: Bytes) {
    s == [] || (s[0] != NUL && s[|s| - 1] != NUL)
  }

  /** `s` holds `c` at offset `k`, with nothing but NULs before and after it. */
  ghost predicate PaddedAt(s: Bytes, c: Bytes, k: int) {
    && 0 <= k <= |s| - |c|
    && (forall i :: 0 <= i < k ==> s[i] == NUL)
    && s[k..k + |c|] == c
    && (forall i :: k + |c| <= i < |s| ==> s[i] == NUL)
  }

  /**
   * Reference definition of the trim, independent of how it is computed:
   * `s` is `c` with a (possibly empty) run of NULs before and after it, and
   * `c` itself carries no NUL at either end. Interior NULs of `c` are part of `c`.
   */
  ghost predicate NulPadded(s: Bytes, c: Bytes) {
    Unpadded(c) && exists k :: PaddedAt(s, c, k)
  }

  /** The length of the run of NULs `s` starts with. */
  function LeadingNuls(s: Bytes): (k: nat)
    ensures k <= |s|
    ensures forall i :: 0 <= i < k ==> s[i] == NUL
    ensures k < |s| ==> s[k] != NUL
  {
    if s != [] && s[0] == NUL then 1 + LeadingNuls(s[1..]) else 0
  }

  /** The length of the run of NULs `s` ends with. */
  function TrailingNuls(s: Bytes): (k: nat)
    ensures k <= |s|
    ensures forall i :: |s| - k <= i < |s| ==> s[i] == NUL
    ensures k < |s| ==> s[|s| - 1 - k] != NUL
  {
    if s != [] && s[|s| - 1] == NUL then 1 + TrailingNuls(s[..|s| - 1]) else 0
  }

  /** `s` without its leading NULs. */
  function TrimLeftNul(s: Bytes): Bytes {
    s[LeadingNuls(s)..]
  }

  /** `s` without its trailing NULs. */
  function TrimRightNul(s: Bytes): Bytes {
    s[..|s| - TrailingNuls(s)]
  }

  /** `bytes.Trim(s, "\x00")`: left trim, then right trim, as Go's TrimFunc does. */
  function TrimNul(s: Bytes): (r: Bytes)
    ensures |r| <= |s|
    ensures Unpadded(r)
  {
    TrimRightNul(TrimLeftNul(s))
  }

  /** Soundness: what the trim returns is the content of `s` between two NUL runs, starting after the leading ones. */
  lemma TrimNulSound(s: Bytes)
    ensures PaddedAt(s, TrimNul(s), LeadingNuls(s))
    ensures NulPadded(s, TrimNul(s))
  {
    var k := LeadingNuls(s);
    var l := s[k..];
    var c := TrimNul(s);
    assert c == l[..|l| - TrailingNuls(l)];
    assert s[k..k + |c|] == c;
    forall i | k + |c| <= i < |s|
      ensures s[i] == NUL
    {
      assert s[i] == l[i - k];
    }
    assert PaddedAt(s, c, k);
  }

  /** Uniqueness: an unpadded `c` that `s` holds between two NUL runs is what the trim returns. */
  lemma TrimNulComplete(s: Bytes, c: Bytes, k: int)
    requires Unpadded(c) && PaddedAt(s, c, k)
    ensures TrimNul(s) == c
  {
    if c == [] {
      assert LeadingNuls(s) == |s|;
    } else {
      assert s[k] == c[0];
      assert LeadingNuls(s) == k;
      var l := s[k..];
      assert l[|c| - 1] == c[|c| - 1];
      assert forall i :: |c| <= i < |l| ==> l[i] == s[k + i];
      assert TrailingNuls(l) == |l| - |c|;
      assert l[..|c|] == c;
    }
  }

  /** The trim is exactly the reference definition: `TrimNul(s) == c` iff `s` is `c` padded with NULs. */
  lemma TrimNulCharacterized(s: Bytes, c: Bytes)
    ensures TrimNul(s) == c <==> NulPadded(s, c)
  {
    if TrimNul(s) == c {
      TrimNulSound(s);
    }
    if NulPadded(s, c) {
      var k :| PaddedAt(s, c, k);
      TrimNulComplete(s, c, k);
    }
  }

  /** The trim never changes an unpadded sequence. */
  lemma TrimNulFixesUnpadded(c: Bytes)
    requires Unpadded(c)
    ensures TrimNul(c) == c
  {
    assert c[0..0 + |c|] == c;
    TrimNulComplete(c, c, 0);
  }

  /** Trimming twice is trimming once. */
  lemma TrimNulIdempotent(s: Bytes)
    ensures TrimNul(TrimNul(s)) == TrimNul(s)
  {
    TrimNulFixesUnpadded(TrimNul(s));
  }

  /** Content held between NUL runs is still held so when more NULs go around it. */
  lemma PaddedAtExtended(pre: Bytes, s: Bytes, post: Bytes, c: Bytes, k: int)
    requires AllNul(pre) && AllNul(post) && PaddedAt(s, c, k)
    ensures PaddedAt(pre + s + post, c, |pre| + k)
  {
    var t := pre + s + post;
    var j := |pre| + k;
    assert t[j..j + |c|] == s[k..k + |c|];
    forall i | 0 <= i < j
      ensures t[i] == NUL
    {
      if i >= |pre| {
        assert t[i] == s[i - |pre|];
      }
    }
    forall i | j + |c| <= i < |t|
      ensures t[i] == NUL
    {
      if i < |pre| + |s| {
        assert t[i] == s[i - |pre|];
      }
    }
  }

  /** NULs added at either end, such as block padding, make no difference to the trim. */
  lemma TrimNulIgnoresPadding(pre: Bytes, s: Bytes, post: Bytes)
    requires AllNul(pre) && AllNul(post)
    ensures TrimNul(pre + s + post) == TrimNul(s)
  {
    TrimNulSound(s);
    PaddedAtExtended(pre, s, post, TrimNul(s), LeadingNuls(s));
    TrimNulComplete(pre + s + post, TrimNul(s), |pre| + LeadingNuls(s));
  }
}
