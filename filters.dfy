/** The per-pixel filters of the editor (invert and grayscale) over the RGBA byte
    array that a canvas's getImageData returns: four bytes per pixel, in the order
    red, green, blue, alpha. */
module Filters {
  import opened Layers

  /** ToUint8Clamp (ECMA-262, section 7.1.12): how a Uint8ClampedArray stores a
      Number. Values at or below 0 store 0, at or above 255 store 255; others are
      rounded to the nearest integer, ties going to the even one. */
  function ToUint8Clamp(x: real): (b: Byte)
    ensures x <= 0.0 ==> b == 0
    ensures x >= 255.0 ==> b == 255
    ensures 0.0 < x < 255.0 ==> -0.5 <= b as real - x <= 0.5
    ensures 0.0 < x < 255.0 && (b as real - x == 0.5 || x - b as real == 0.5) ==> b % 2 == 0
  {
    if x <= 0.0 then 0
    else if x >= 255.0 then 255
    else
      var f := x.Floor;
      if f as real + 0.5 < x then f + 1
      else if x < f as real + 0.5 then f
      else if f % 2 == 0 then f
      else f + 1
  }

  /** The grey level of a pixel: the mean of its three colour channels, rounded
      to the nearest integer. The mean is a multiple of 1/3, so it is never a tie
      and the result is within 1/3 of it. */
  function Gray(r: Byte, g: Byte, b: Byte): (v: Byte)
    ensures 3 * v - 1 <= r + g + b <= 3 * v + 1
  {
    (r + g + b + 1) / 3
  }

  /** Storing the mean `sum / 3` of three channel values into a Uint8ClampedArray
      stores exactly the grey level. */
  lemma StoredMean(r: Byte, g: Byte, b: Byte)
    ensures ToUint8Clamp((r as int + g + b) as real / 3.0) == Gray(r, g, b)
  {
    var sum := r as int + g + b;
    var q, m := sum / 3, sum % 3;
    var x := sum as real / 3.0;
    assert x == q as real + m as real / 3.0;
    if x > 0.0 && x < 255.0 {
      assert x.Floor == q;
    }
  }

  /** The four bytes of pixel `p` lie inside a buffer whose length is a multiple of four. */
  lemma PixelInBounds(n: nat, p: nat)
    requires n % 4 == 0 && 4 * p < n
    ensures 4 * p + 3 < n
  {
  }

  /** The invert filter: every colour byte v becomes 255 - v; alpha is kept. */
  function Invert(s: seq<Byte>): (r: seq<Byte>)
    requires |s| % 4 == 0
    ensures |r| == |s|
    decreases |s|
  {
    if s == [] then []
    else [255 - s[0], 255 - s[1], 255 - s[2], s[3]] + Invert(s[4..])
  }

  /** The grayscale filter: the three colour bytes of every pixel become that
      pixel's grey level; alpha is kept. */
  function Grayscale(s: seq<Byte>): (r: seq<Byte>)
    requires |s| % 4 == 0
    ensures |r| == |s|
    decreases |s|
  {
    if s == [] then []
    else
      var v := Gray(s[0], s[1], s[2]);
      [v, v, v, s[3]] + Grayscale(s[4..])
  }

  /** Channel `c` of pixel `p` after inverting: the colour channels are
      complemented to 255, the alpha channel (c == 3) is kept. */
  lemma {:induction false} InvertAt(s: seq<Byte>, p: nat, c: nat)
    requires |s| % 4 == 0 && 4 * p < |s| && c < 4
    ensures Invert(s)[4 * p + c] == if c == 3 then s[4 * p + c] else 255 - s[4 * p + c]
  {
    if p > 0 {
      InvertAt(s[4..], p - 1, c);
    }
  }

  /** Channel `c` of pixel `p` after grayscale: each colour channel is the pixel's
      grey level, the alpha channel (c == 3) is kept. */
  lemma {:induction false} GrayscaleAt(s: seq<Byte>, p: nat, c: nat)
    requires |s| % 4 == 0 && 4 * p < |s| && c < 4
    ensures Grayscale(s)[4 * p + c] ==
            if c == 3 then s[4 * p + 3] else Gray(s[4 * p], s[4 * p + 1], s[4 * p + 2])
  {
    if p > 0 {
      GrayscaleAt(s[4..], p - 1, c);
    }
  }

  /** The image data after the filter loop of applyFilter for a filter name:
      only "invert" and "grayscale" change bytes. */
  function Filtered(kind: string, s: seq<Byte>): (r: seq<Byte>)
    requires |s| % 4 == 0
    ensures |r| == |s|
    ensures kind != "invert" && kind != "grayscale" ==> r == s
  {
    if kind == "invert" then Invert(s)
    else if kind == "grayscale" then Grayscale(s)
    else s
  }

  /** Inverting twice gives back the original bytes. */
  lemma InvertInvolutive(s: seq<Byte>)
    requires |s| % 4 == 0
    ensures Invert(Invert(s)) == s
  {
    var r := Invert(Invert(s));
    forall k | 0 <= k < |s|
      ensures r[k] == s[k]
    {
      var p, c := k / 4, k % 4;
      assert k == 4 * p + c;
      InvertAt(s, p, c);
      InvertAt(Invert(s), p, c);
    }
  }

  /** After grayscale, the red, green and blue bytes of every pixel are equal, and
      alpha is unchanged. */
  lemma GrayscaleChannelsEqual(s: seq<Byte>, p: nat)
    requires |s| % 4 == 0 && 4 * p < |s|
    ensures var r := Grayscale(s);
            r[4 * p] == r[4 * p + 1] == r[4 * p + 2] && r[4 * p + 3] == s[4 * p + 3]
  {
    GrayscaleAt(s, p, 0);
    GrayscaleAt(s, p, 1);
    GrayscaleAt(s, p, 2);
    GrayscaleAt(s, p, 3);
  }

  /** Grayscale leaves channel `c` of a pixel whose three colour channels are
      already equal as it is. */
  lemma GrayscaleFixesGreyPixel(g: seq<Byte>, p: nat, c: nat)
    requires |g| % 4 == 0 && 4 * p + 3 < |g| && c < 4
    requires g[4 * p] == g[4 * p + 1] == g[4 * p + 2]
    ensures Grayscale(g)[4 * p + c] == g[4 * p + c]
  {
    GrayscaleAt(g, p, c);
    var v := g[4 * p];
    assert Gray(v, v, v) == v;
  }

  /** Grayscale leaves channel `c` of pixel `p` of an already grey image as it is. */
  lemma GrayscaleIdempotentAt(s: seq<Byte>, p: nat, c: nat)
    requires |s| % 4 == 0 && 4 * p + 3 < |s| && c < 4
    ensures Grayscale(Grayscale(s))[4 * p + c] == Grayscale(s)[4 * p + c]
  {
    GrayscaleChannelsEqual(s, p);
    GrayscaleFixesGreyPixel(Grayscale(s), p, c);
  }

  /** Applying grayscale a second time changes nothing. */
  lemma GrayscaleIdempotent(s: seq<Byte>)
    requires |s| % 4 == 0
    ensures Grayscale(Grayscale(s)) == Grayscale(s)
  {
    forall k | 0 <= k < |s|
      ensures Grayscale(Grayscale(s))[k] == Grayscale(s)[k]
    {
      var p, c := k / 4, k % 4;
      assert k == 4 * p + c;
      PixelInBounds(|s|, p);
      GrayscaleIdempotentAt(s, p, c);
    }
  }

  /** The four bytes of pixel `p` after the filter loop. */
  lemma FilteredPixel(kind: string, s: seq<Byte>, p: nat)
    requires |s| % 4 == 0 && 4 * p + 3 < |s|
    ensures var f := Filtered(kind, s);
            && f[4 * p + 3] == s[4 * p + 3]
            && (kind == "invert" ==>
                  f[4 * p] == 255 - s[4 * p] && f[4 * p + 1] == 255 - s[4 * p + 1] && f[4 * p + 2] == 255 - s[4 * p + 2])
            && (kind == "grayscale" ==>
                  var v := Gray(s[4 * p], s[4 * p + 1], s[4 * p + 2]);
                  f[4 * p] == v && f[4 * p + 1] == v && f[4 * p + 2] == v)
            && (kind != "invert" && kind != "grayscale" ==>
                  f[4 * p] == s[4 * p] && f[4 * p + 1] == s[4 * p + 1] && f[4 * p + 2] == s[4 * p + 2])
  {
    if kind == "invert" {
      InvertAt(s, p, 0); InvertAt(s, p, 1); InvertAt(s, p, 2); InvertAt(s, p, 3);
    } else if kind == "grayscale" {
      GrayscaleAt(s, p, 0); GrayscaleAt(s, p, 1); GrayscaleAt(s, p, 2); GrayscaleAt(s, p, 3);
    }
  }

  /** One pass of the filter loop: rewrites the three colour bytes of the pixel
      starting at `i` in place and touches no other byte. */
  method FilterPixelInPlace(data: array<Byte>, i: nat, kind: string)
    requires i + 3 < data.Length
    modifies data
    ensures forall k :: 0 <= k < data.Length && (k < i || i + 2 < k) ==> data[k] == old(data[k])
    ensures kind == "invert" ==>
              data[i] == 255 - old(data[i]) && data[i + 1] == 255 - old(data[i + 1]) && data[i + 2] == 255 - old(data[i + 2])
    ensures kind == "grayscale" ==>
              var v := Gray(old(data[i]), old(data[i + 1]), old(data[i + 2]));
              data[i] == v && data[i + 1] == v && data[i + 2] == v
    ensures kind != "invert" && kind != "grayscale" ==>
              data[i] == old(data[i]) && data[i + 1] == old(data[i + 1]) && data[i + 2] == old(data[i + 2])
  {
    if kind == "invert" {
      data[i] := 255 - data[i];
      data[i + 1] := 255 - data[i + 1];
      data[i + 2] := 255 - data[i + 2];
    } else if kind == "grayscale" {
      StoredMean(data[i], data[i + 1], data[i + 2]);
      var avg := (data[i] as int + data[i + 1] + data[i + 2]) as real / 3.0;
      data[i] := ToUint8Clamp(avg);
      data[i + 1] := ToUint8Clamp(avg);
      data[i + 2] := ToUint8Clamp(avg);
    }
  }

  /** The loop of applyFilter: getImageData hands out a fresh copy of the layer's
      bytes, the loop rewrites that copy in place four bytes at a time, and the
      result is what putImageData writes back. */
  method FilterImageData(kind: string, px: seq<Byte>) returns (out: seq<Byte>)
    requires |px| % 4 == 0
    ensures out == Filtered(kind, px)
  {
    var data := new Byte[|px|](k requires 0 <= k < |px| => px[k]);
    ghost var want := Filtered(kind, px);
    var i := 0;
    ghost var p := 0;
    while i < data.Length
      invariant 0 <= i <= data.Length && i == 4 * p
      invariant forall k :: 0 <= k < i ==> data[k] == want[k]
      invariant forall k :: i <= k < data.Length ==> data[k] == px[k]
    {
      PixelInBounds(data.Length, p);
      FilteredPixel(kind, px, p);
      FilterPixelInPlace(data, i, kind);
      i, p := i + 4, p + 1;
    }
    out := data[..];
    assert out == want;
  }
}
