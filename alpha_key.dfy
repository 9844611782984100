/**
 * The PNG export's white-to-transparent pass over RGBA pixel bytes: every
 * pixel whose red, green and blue bytes are all 255 gets alpha 0.
 */
module AlphaKey {
  newtype byte = b: int | 0 <= b < 256

  /** The pixel starting at byte `i` is pure white. */
  predicate IsWhiteAt(s: seq<byte>, i: nat)
    requires i + 2 < |s|
  {
    s[i] == 255 && s[i + 1] == 255 && s[i + 2] == 255
  }

  /** What byte `k` of keyed data holds: 0 for the alpha byte of a white pixel, the old byte otherwise. */
  function KeyedByte(s: seq<byte>, k: nat): byte
    requires |s| % 4 == 0 && k < |s|
  {
    if k % 4 == 3 && IsWhiteAt(s, k - 3) then 0 else s[k]
  }

  /** One RGBA pixel with a pure-white colour made fully transparent. */
  function KeyPixel(px: seq<byte>): (r: seq<byte>)
    requires |px| == 4
    ensures |r| == 4 && r[..3] == px[..3]
    ensures r[3] == if IsWhiteAt(px, 0) then 0 else px[3]
  {
    if IsWhiteAt(px, 0) then px[..3] + [0] else px
  }

  /** The keyed image data: every pixel keyed in turn. */
  function KeyWhite(s: seq<byte>): (r: seq<byte>)
    requires |s| % 4 == 0
    ensures |r| == |s|
  {
    if |s| == 0 then [] else KeyPixel(s[..4]) + KeyWhite(s[4..])
  }

  /** Byte by byte, keying changes exactly the alpha bytes of white pixels, to 0. */
  lemma {:induction false} KeyWhiteAt(s: seq<byte>, k: nat)
    requires |s| % 4 == 0 && k < |s|
    ensures KeyWhite(s)[k] == KeyedByte(s, k)
  {
    if k >= 4 {
      KeyWhiteAt(s[4..], k - 4);
      assert (k - 4) % 4 == k % 4;
      if k % 4 == 3 {
        assert IsWhiteAt(s[4..], k - 7) == IsWhiteAt(s, k - 3);
      }
    }
  }

  /** Keying twice gives the same bytes as keying once. */
  lemma {:induction false} KeyWhiteIdempotent(s: seq<byte>)
    requires |s| % 4 == 0
    ensures KeyWhite(KeyWhite(s)) == KeyWhite(s)
  {
    var once := KeyWhite(s);
    forall k | 0 <= k < |s|
      ensures KeyWhite(once)[k] == once[k]
    {
      KeyWhiteAt(once, k);
      KeyWhiteAt(s, k);
      if k % 4 == 3 {
        KeyWhiteAt(s, k - 3);
        KeyWhiteAt(s, k - 2);
        KeyWhiteAt(s, k - 1);
      }
    }
  }

  /**
   * The loop in `downloadImage`: step through the data four bytes at a time
   * and zero the alpha byte of each pure-white pixel, in place.
   */
  method MakeWhiteTransparent(data: array<byte>)
    requires data.Length % 4 == 0
    modifies data
    ensures data[..] == KeyWhite(old(data[..]))
  {
    ghost var original := data[..];
    var i := 0;
    while i < data.Length
      invariant 0 <= i <= data.Length && i % 4 == 0
      invariant forall k :: 0 <= k < i ==> data[k] == KeyedByte(original, k)
      invariant forall k :: i <= k < data.Length ==> data[k] == original[k]
    {
      if data[i] == 255 && data[i + 1] == 255 && data[i + 2] == 255 {
        data[i + 3] := 0;
      }
      i := i + 4;
    }
    forall k | 0 <= k < data.Length
      ensures data[..][k] == KeyWhite(original)[k]
    {
      KeyWhiteAt(original, k);
    }
  }
}
