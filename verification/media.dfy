/** Data URLs (section 3 of RFC 2397) carrying a base64 payload (section 4 of
    RFC 4648), as both image paths build them. The base64 and UTF-8 encoders
    are library calls in the source (`Buffer`, `btoa`) and enter the model as
    function parameters. */
module Media {
  import opened Base

  newtype Byte = x: int | 0 <= x < 256

  /** A base64 encoder: `Buffer.from(bytes).toString('base64')` or `btoa`
      of the bytes read as a binary string. */
  type Base64Encoder = seq<Byte> -> string

  /** A UTF-8 encoder: `Buffer.from(text)`. */
  type Utf8Encoder = string -> seq<Byte>

  /** A response body read as a `Blob`: its declared type and its bytes. */
  datatype Blob = Blob(mimeType: string, bytes: seq<Byte>)

  const DataPrefix: string := "data:"
  const Base64Marker: string := ";base64,"

  /** `data:${mime};base64,${payload}`. */
  function DataUrl(mime: string, payload: string): string {
    DataPrefix + mime + Base64Marker + payload
  }

  /** `blob.type || 'image/png'`: an empty declared type falls back to PNG. */
  function MimeOrPng(blob: Blob): (m: string)
    ensures m != ""
    ensures blob.mimeType != "" ==> m == blob.mimeType
  {
    if blob.mimeType != "" then blob.mimeType else "image/png"
  }

  /** The position of the first `c` in `s`, or `|s|` when there is none. */
  function IndexOf(s: string, c: char): (i: nat)
    ensures i <= |s|
    ensures i < |s| ==> s[i] == c
    ensures forall k :: 0 <= k < i ==> s[k] != c
  {
    if |s| == 0 then 0
    else if s[0] == c then 0
    else 1 + IndexOf(s[1..], c)
  }

  /** Reads a base64 data URL back into its media type and payload: the type
      runs from after `data:` to the first `;`, which must open `;base64,`. */
  function ParseDataUrl(url: string): Option<(string, string)> {
    if |url| < |DataPrefix| || url[..|DataPrefix|] != DataPrefix then None
    else
      var rest := url[|DataPrefix|..];
      var i := IndexOf(rest, ';');
      if i + |Base64Marker| <= |rest| && rest[i..i + |Base64Marker|] == Base64Marker then
        Some((rest[..i], rest[i + |Base64Marker|..]))
      else None
  }

  /** A data URL whose media type contains no `;` reads back as the media
      type and payload it was built from. */
  lemma ParseDataUrlRoundTrip(mime: string, payload: string)
    requires ';' !in mime
    ensures ParseDataUrl(DataUrl(mime, payload)) == Some((mime, payload))
  {
    var url := DataUrl(mime, payload);
    var rest := url[|DataPrefix|..];
    assert url[..|DataPrefix|] == DataPrefix;
    assert rest == mime + Base64Marker + payload;
    assert rest[|mime|] == ';';
    assert forall k :: 0 <= k < |mime| ==> rest[k] == mime[k];
    var i := IndexOf(rest, ';');
    assert i == |mime|;
    assert rest[i..i + |Base64Marker|] == Base64Marker;
    assert rest[..i] == mime;
    assert rest[i + |Base64Marker|..] == payload;
  }
}
