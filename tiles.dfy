/** The tile hasher: slicing the composite image into one horizontal band per domain and
    classifying each band (`_process_image_data` band arithmetic, `_process_tile`,
    `_is_white_square`). Image decoding and SHA-256 are outside the model: the image arrives as an
    RGBA raster and the digest function is a parameter. */
module Tiles {
  import opened Wrappers
  import opened Seqs

  newtype byte = x: int | 0 <= x < 256

  /** One RGBA pixel, as `getdata()` yields it after `convert('RGBA')`. */
  datatype Pixel = Pixel(r: byte, g: byte, b: byte, a: byte)

  const OPAQUE_WHITE: Pixel := Pixel(255, 255, 255, 255)

  /** An RGBA raster: its rows of pixels, top row first. */
  datatype Image = Image(rows: seq<seq<Pixel>>) {
    function Height(): nat { |rows| }
  }

  /** What `hashlib.sha256(...).hexdigest()` returns: a string of 64 hexadecimal digits (only
      its length is used here). */
  type Sha256Hex = s: string | |s| == 64
    witness seq(64, _ => '0')

  /** The hash prefix of the provider's "no favicon" placeholder. */
  const DEFAULT_ICON_PREFIX: string := "5f70bf18"
  /** The placeholder recorded for a blank tile when `--show-white-hashes` is given. */
  const NULL_MARKER: string := "NULL"

  lemma MulMonotone(a: nat, b: nat, t: nat)
    requires a <= b
    ensures a * t <= b * t
  {
    assert b * t == a * t + (b - a) * t;
  }

  /** Rows `[y1, y2)` of band `idx` when an image of height `h` holds `n` bands:
      `tile_height = h // n`, `y1 = idx * tile_height`, `y2 = min(y1 + tile_height, h)`. */
  function BandBounds(h: nat, n: nat, idx: nat): (bounds: (nat, nat))
    requires 1 <= n && idx < n
    ensures bounds.0 == idx * (h / n)
    ensures bounds.1 == bounds.0 + h / n
    ensures bounds.1 <= h
  {
    var tileHeight := h / n;
    var y1 := idx * tileHeight;
    MulMonotone(idx + 1, n, tileHeight);
    var y2 := if y1 + tileHeight < h then y1 + tileHeight else h;
    (y1, y2)
  }

  /** Row `y` lies in band `idx`. */
  predicate InBand(h: nat, n: nat, idx: nat, y: int)
    requires 1 <= n && idx < n
  {
    BandBounds(h, n, idx).0 <= y < BandBounds(h, n, idx).1
  }

  /** The bands start at row 0, follow each other without gap or overlap, and end at row
      `n * (h / n)`: the bottom `h % n` rows belong to no band and are never hashed. */
  lemma {:induction false} BandsAreContiguous(h: nat, n: nat)
    requires 1 <= n
    ensures BandBounds(h, n, 0).0 == 0
    ensures forall idx :: 0 <= idx < n - 1 ==> BandBounds(h, n, idx).1 == BandBounds(h, n, idx + 1).0
    ensures BandBounds(h, n, n - 1).1 == n * (h / n) == h - h % n
  {
    forall idx | 0 <= idx < n - 1
      ensures BandBounds(h, n, idx).1 == BandBounds(h, n, idx + 1).0
    {
      assert (idx + 1) * (h / n) == idx * (h / n) + h / n;
    }
    assert n * (h / n) == (n - 1) * (h / n) + h / n;
  }

  /** Row `y` of the first `n` bands of height `t` belongs to band `y / t`. */
  lemma RowBand(y: int, n: nat, t: nat) returns (idx: nat)
    requires 0 <= y < n * t
    ensures idx < n && idx * t <= y < idx * t + t
  {
    assert t > 0;
    idx := y / t;
    assert y == idx * t + y % t;
    if idx >= n {
      MulMonotone(n, idx, t);
    }
  }

  /** A band ends no lower than any later band starts. */
  lemma BandsOrdered(i: nat, j: nat, t: nat)
    requires i < j
    ensures i * t + t <= j * t
  {
    assert (i + 1) * t == i * t + t;
    MulMonotone(i + 1, j, t);
  }

  /** Every row above `n * (h / n)` lies in exactly one band, and no other row lies in any band. */
  lemma {:induction false} BandsPartitionRows(h: nat, n: nat, y: int)
    requires 1 <= n
    ensures (exists idx :: 0 <= idx < n && InBand(h, n, idx, y)) <==> 0 <= y < n * (h / n)
    ensures forall i, j :: 0 <= i < n && 0 <= j < n && InBand(h, n, i, y) && InBand(h, n, j, y) ==> i == j
  {
    var t := h / n;
    if 0 <= y < n * t {
      var idx := RowBand(y, n, t);
      assert InBand(h, n, idx, y);
    }
    forall idx | 0 <= idx < n && InBand(h, n, idx, y)
      ensures 0 <= y < n * t
    {
      if idx + 1 < n {
        BandsOrdered(idx, n - 1, t);
      }
      BandsOrdered(idx, n, t);
    }
    forall i, j | 0 <= i < n && 0 <= j < n && InBand(h, n, i, y) && InBand(h, n, j, y)
      ensures i == j
    {
      if i < j {
        BandsOrdered(i, j, t);
      } else if j < i {
        BandsOrdered(j, i, t);
      }
    }
  }

  /** Band `idx` of the image cut into `n` bands: `img.crop((0, y1, w, y2))`. */
  function Band(img: Image, n: nat, idx: nat): seq<seq<Pixel>>
    requires 1 <= n && idx < n
  {
    var bounds := BandBounds(img.Height(), n, idx);
    img.rows[bounds.0..bounds.1]
  }

  /** Every band is `h // n` rows high, and its row `k` is row `idx * (h // n) + k` of the image. */
  lemma BandRows(img: Image, n: nat, idx: nat)
    requires 1 <= n && idx < n
    ensures |Band(img, n, idx)| == img.Height() / n
    ensures forall k :: 0 <= k < img.Height() / n ==> Band(img, n, idx)[k] == img.rows[idx * (img.Height() / n) + k]
  {
  }

  /** `getdata()`: the band's pixels row by row. */
  function GetData(band: seq<seq<Pixel>>): seq<Pixel> {
    Flatten(band)
  }

  /** `tobytes()` of an RGBA raster: four bytes per pixel, red, green, blue, alpha. */
  function ToBytes(pixels: seq<Pixel>): (bytes: seq<byte>)
    ensures |bytes| == 4 * |pixels|
  {
    if |pixels| == 0 then []
    else
      var p := pixels[|pixels| - 1];
      ToBytes(pixels[..|pixels| - 1]) + [p.r, p.g, p.b, p.a]
  }

  /** The byte string determines the pixels: `tobytes()` loses nothing. */
  lemma {:induction false} ToBytesInjective(p: seq<Pixel>, q: seq<Pixel>)
    requires ToBytes(p) == ToBytes(q)
    ensures p == q
  {
    if |p| > 0 {
      var bp, bq := ToBytes(p), ToBytes(q);
      var n := |bp|;
      assert bp[..n - 4] == ToBytes(p[..|p| - 1]);
      assert bq[..n - 4] == ToBytes(q[..|q| - 1]);
      ToBytesInjective(p[..|p| - 1], q[..|q| - 1]);
      var x, y := p[|p| - 1], q[|q| - 1];
      assert bp[n - 4..] == [x.r, x.g, x.b, x.a];
      assert bq[n - 4..] == [y.r, y.g, y.b, y.a];
      assert p == p[..|p| - 1] + [x] && q == q[..|q| - 1] + [y];
    }
  }

  /** `_is_white_square`: every pixel is opaque pure white (vacuously true of an empty band). */
  predicate IsWhiteSquare(band: seq<seq<Pixel>>) {
    var pixels := GetData(band);
    forall i :: 0 <= i < |pixels| ==> pixels[i] == OPAQUE_WHITE
  }

  /** `hexdigest()[:8]` of the band's bytes. */
  function HashPrefix(band: seq<seq<Pixel>>, sha256: seq<byte> -> Sha256Hex): string {
    sha256(ToBytes(GetData(band)))[..8]
  }

  /** The value a blank tile gets: the placeholder when the flag is set, otherwise nothing. */
  function Blank(showWhiteHashes: bool): Option<string> {
    if showWhiteHashes then Some(NULL_MARKER) else None
  }

  /** `_process_tile`: a white band, or a band whose hash prefix starts with the placeholder's,
      is blank; any other band yields the first eight digits of its hash. */
  function ProcessTile(band: seq<seq<Pixel>>, showWhiteHashes: bool, sha256: seq<byte> -> Sha256Hex)
    : Option<string>
  {
    if IsWhiteSquare(band) then Blank(showWhiteHashes)
    else
      var prefix := HashPrefix(band, sha256);
      if DEFAULT_ICON_PREFIX <= prefix then Blank(showWhiteHashes)
      else Some(prefix)
  }

  /** A band is blank exactly when it is white or its hash prefix is the placeholder's; any other
      band yields its eight-digit hash prefix, which can be neither the placeholder's prefix nor
      the four-letter NULL marker, so the marker only ever appears when the flag asks for it. */
  lemma ProcessTileCases(band: seq<seq<Pixel>>, showWhiteHashes: bool, sha256: seq<byte> -> Sha256Hex)
    ensures var r := ProcessTile(band, showWhiteHashes, sha256);
            && (r == Blank(showWhiteHashes) <==>
                  IsWhiteSquare(band) || HashPrefix(band, sha256) == DEFAULT_ICON_PREFIX)
            && (r != Blank(showWhiteHashes) ==>
                  && r == Some(HashPrefix(band, sha256)) && |r.value| == 8
                  && r.value != NULL_MARKER && r.value != DEFAULT_ICON_PREFIX)
            && (r == Some(NULL_MARKER) ==> showWhiteHashes)
  {
  }

  /** The classification depends on nothing but the band's bytes and the flag: two bands with the
      same `tobytes()` are classified alike. */
  lemma SameBytesSameTile(b1: seq<seq<Pixel>>, b2: seq<seq<Pixel>>, showWhiteHashes: bool,
                          sha256: seq<byte> -> Sha256Hex)
    requires ToBytes(GetData(b1)) == ToBytes(GetData(b2))
    ensures ProcessTile(b1, showWhiteHashes, sha256) == ProcessTile(b2, showWhiteHashes, sha256)
  {
    ToBytesInjective(GetData(b1), GetData(b2));
  }

  /** With more domains than rows every band is empty, hence white, hence blank. */
  lemma ShortImageIsBlank(img: Image, n: nat, idx: nat, showWhiteHashes: bool,
                          sha256: seq<byte> -> Sha256Hex)
    requires img.Height() < n && idx < n
    ensures Band(img, n, idx) == []
    ensures ProcessTile(Band(img, n, idx), showWhiteHashes, sha256) == Blank(showWhiteHashes)
  {
  }
}
