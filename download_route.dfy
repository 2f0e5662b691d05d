/** The `POST /api/download` handler: it fetches the image named in the request (the outcome of
    that fetch is a parameter) and answers with its bytes and download headers. */
module DownloadRoute {
  import opened Wrappers
  import opened Js

  newtype byte = x: int | 0 <= x < 256

  /** `await request.json()` destructured: the two fields, or the thrown exception. */
  datatype DownloadBody = Malformed | DownloadRequest(imageUrl: Option<string>, filename: Option<string>)

  /** The outcome of `fetch(imageUrl)`: rejected, or a response with its `content-type` header
      and its body (`None` when reading the body failed). */
  datatype ImageFetch =
    | FetchRejected
    | ImageResponse(status: nat, contentType: Option<string>, bytes: Option<seq<byte>>)

  /** A JSON error reply, or the binary reply with its headers (keyed by lower-case name). */
  datatype DownloadReply =
    | JsonError(status: nat, error: string)
    | Binary(status: nat, headers: map<string, string>, body: seq<byte>)

  const UrlRequired := "Image URL is required"
  const FetchFailed := "Failed to fetch image"
  const DownloadFailed := "Failed to download image"
  const DefaultContentType := "image/jpeg"
  const DefaultFilename := "generated-image.jpg"
  const DispositionPrefix := "attachment; filename=\""

  // ---------------------------------------------------------------------------
  // Header values as the Fetch standard's Headers object treats them

  /** HTTP tab or space, and the line breaks stripped from both ends of a header value. */
  predicate IsHttpWhitespace(c: char) {
    c == '\t' || c == '\n' || c == '\r' || c == ' '
  }

  /** A header value with its leading and trailing HTTP whitespace removed. */
  function NormalizeHeaderValue(v: string): (r: string)
    ensures |r| <= |v|
    ensures r == "" || (!IsHttpWhitespace(r[0]) && !IsHttpWhitespace(r[|r| - 1]))
    ensures (v == "" || (!IsHttpWhitespace(v[0]) && !IsHttpWhitespace(v[|v| - 1]))) ==> r == v
    decreases |v|
  {
    if v != [] && IsHttpWhitespace(v[0]) then NormalizeHeaderValue(v[1..])
    else if v != [] && IsHttpWhitespace(v[|v| - 1]) then NormalizeHeaderValue(v[..|v| - 1])
    else v
  }

  /** Only HTTP whitespace comes before `v[a..b]` and after it. */
  predicate HttpPadded(v: string, a: nat, b: nat)
    requires a <= b <= |v|
  {
    (forall k | 0 <= k < a :: IsHttpWhitespace(v[k])) && forall k | b <= k < |v| :: IsHttpWhitespace(v[k])
  }

  /** Normalization cuts only HTTP whitespace, and only from the two ends: the result is the
      slice `v[a..b]` with nothing but HTTP whitespace around it. */
  lemma {:induction false} NormalizeIsSlice(v: string) returns (a: nat, b: nat)
    ensures a <= b <= |v| && NormalizeHeaderValue(v) == v[a..b] && HttpPadded(v, a, b)
    decreases |v|
  {
    if v != [] && IsHttpWhitespace(v[0]) {
      var w := v[1..];
      var a', b' := NormalizeIsSlice(w);
      a, b := a' + 1, b' + 1;
      assert w[a'..b'] == v[a..b];
      forall k | 0 <= k < a ensures IsHttpWhitespace(v[k]) {
        if k > 0 { assert v[k] == w[k - 1]; }
      }
      forall k | b <= k < |v| ensures IsHttpWhitespace(v[k]) {
        assert v[k] == w[k - 1];
      }
    } else if v != [] && IsHttpWhitespace(v[|v| - 1]) {
      var w := v[..|v| - 1];
      a, b := NormalizeIsSlice(w);
      assert w[a..b] == v[a..b];
      forall k | b <= k < |v| ensures IsHttpWhitespace(v[k]) {
        if k < |w| { assert v[k] == w[k]; }
      }
    } else {
      a, b := 0, |v|;
      assert v[a..b] == v;
    }
  }

  /** The characters a header value may not contain once normalized. */
  predicate IsForbiddenInValue(c: char) {
    c == '\0' || c == '\n' || c == '\r'
  }

  /** `headers.set` accepts the value: every character fits in a byte, and the normalized
      value holds no NUL, CR or LF. */
  predicate ValidHeaderValue(v: string) {
    (forall k | 0 <= k < |v| :: v[k] as int <= 0xFF)
    && forall k | 0 <= k < |NormalizeHeaderValue(v)| :: !IsForbiddenInValue(NormalizeHeaderValue(v)[k])
  }

  /** Every character of `s` fits in a byte and none is NUL, CR or LF. */
  predicate AllowedInValue(s: string) {
    forall k | 0 <= k < |s| :: s[k] as int <= 0xFF && !IsForbiddenInValue(s[k])
  }

  lemma AllowedConcat(a: string, b: string)
    ensures AllowedInValue(a + b) <==> AllowedInValue(a) && AllowedInValue(b)
  {
    if AllowedInValue(a + b) {
      forall k | 0 <= k < |b| ensures b[k] as int <= 0xFF && !IsForbiddenInValue(b[k]) {
        assert (a + b)[|a| + k] == b[k];
      }
      forall k | 0 <= k < |a| ensures a[k] as int <= 0xFF && !IsForbiddenInValue(a[k]) {
        assert (a + b)[k] == a[k];
      }
    }
  }

  /** The fixed start of the disposition is printable ASCII, so it is allowed in a value. */
  lemma PrefixAllowed()
    ensures AllowedInValue(DispositionPrefix)
  {
    assert forall k | 0 <= k < |DispositionPrefix| :: ' ' <= DispositionPrefix[k] <= '~';
  }

  function LowerChar(c: char): char {
    if 'A' <= c <= 'Z' then (c as int + 32) as char else c
  }

  /** A header name with its ASCII letters in lower case, the form the headers are keyed by. */
  function AsciiLower(name: string): (r: string)
    ensures |r| == |name|
    ensures forall k | 0 <= k < |name| :: r[k] == LowerChar(name[k])
  {
    seq(|name|, k requires 0 <= k < |name| => LowerChar(name[k]))
  }

  /** A `Headers` object: a map from lower-case names to normalized values. */
  class Headers {
    var entries: map<string, string>

    constructor()
      ensures entries == map[]
    {
      entries := map[];
    }

    /** `headers.set(name, value)`; `ok` is false where it throws, and then nothing changes. */
    method Set(name: string, value: string) returns (ok: bool)
      modifies this
      ensures ok <==> ValidHeaderValue(value)
      ensures entries == if ok then old(entries)[AsciiLower(name) := NormalizeHeaderValue(value)]
                         else old(entries)
    {
      ok := ValidHeaderValue(value);
      if ok {
        entries := entries[AsciiLower(name) := NormalizeHeaderValue(value)];
      }
    }
  }

  lemma ContentTypeKey() ensures AsciiLower("Content-Type") == "content-type" {}
  lemma ContentDispositionKey() ensures AsciiLower("Content-Disposition") == "content-disposition" {}
  lemma ContentLengthKey() ensures AsciiLower("Content-Length") == "content-length" {}

  // ---------------------------------------------------------------------------
  // The reply

  /** The upstream content type, or `image/jpeg` when it has none. */
  function ContentType(upstream: Option<string>): (r: string)
    ensures Truthy(upstream) ==> r == upstream.value
    ensures !Truthy(upstream) ==> r == DefaultContentType
  {
    if Truthy(upstream) then upstream.value else DefaultContentType
  }

  /** The `Content-Disposition` value: `attachment; filename="<name>"`, with the requested
      name inserted as it is, or `generated-image.jpg` when there is none. */
  function Disposition(filename: Option<string>): (r: string)
    ensures var name := if Truthy(filename) then filename.value else DefaultFilename;
            |r| == |DispositionPrefix| + |name| + 1
            && r[..|DispositionPrefix|] == DispositionPrefix
            && r[|DispositionPrefix|..|r| - 1] == name
            && r[|r| - 1] == '"'
  {
    var name := if Truthy(filename) then filename.value else DefaultFilename;
    DispositionPrefix + name + "\""
  }

  /** The headers of a successful download. */
  function DownloadHeaders(contentType: string, disposition: string, length: nat): (h: map<string, string>)
    ensures h.Keys == {"content-type", "content-disposition", "content-length"}
    ensures h["content-type"] == NormalizeHeaderValue(contentType)
    ensures h["content-disposition"] == NormalizeHeaderValue(disposition)
    ensures h["content-length"] == NormalizeHeaderValue(ToDecimal(length))
  {
    map[]["content-type" := NormalizeHeaderValue(contentType)]
         ["content-disposition" := NormalizeHeaderValue(disposition)]
         ["content-length" := NormalizeHeaderValue(ToDecimal(length))]
  }

  /** Handles one download request; `fetchedUrl` is the URL fetched, `None` when there is no
      fetch. */
  method Post(body: DownloadBody, fetched: ImageFetch) returns (reply: DownloadReply, fetchedUrl: Option<string>)
    ensures body.Malformed? ==> reply == JsonError(500, DownloadFailed) && fetchedUrl.None?
    ensures body.DownloadRequest? && !Truthy(body.imageUrl) ==> reply == JsonError(400, UrlRequired) && fetchedUrl.None?
    ensures body.DownloadRequest? && Truthy(body.imageUrl) ==> fetchedUrl == body.imageUrl
    ensures fetchedUrl.Some? && fetched.FetchRejected? ==> reply == JsonError(500, DownloadFailed)
    ensures fetchedUrl.Some? && fetched.ImageResponse? && !IsOkStatus(fetched.status) ==>
            reply == JsonError(400, FetchFailed)
    ensures fetchedUrl.Some? && fetched.ImageResponse? && IsOkStatus(fetched.status) && fetched.bytes.None? ==>
            reply == JsonError(500, DownloadFailed)
    ensures fetchedUrl.Some? && fetched.ImageResponse? && IsOkStatus(fetched.status) && fetched.bytes.Some? ==>
            var contentType := ContentType(fetched.contentType);
            var disposition := Disposition(body.filename);
            if ValidHeaderValue(contentType) && ValidHeaderValue(disposition) then
              reply == Binary(200, DownloadHeaders(contentType, disposition, |fetched.bytes.value|), fetched.bytes.value)
            else reply == JsonError(500, DownloadFailed)
  {
    fetchedUrl := None;
    if body.Malformed? {
      return JsonError(500, DownloadFailed), fetchedUrl;
    }
    if !Truthy(body.imageUrl) {
      return JsonError(400, UrlRequired), fetchedUrl;
    }
    fetchedUrl := body.imageUrl;
    if fetched.FetchRejected? {
      return JsonError(500, DownloadFailed), fetchedUrl;
    }
    if !IsOkStatus(fetched.status) {
      return JsonError(400, FetchFailed), fetchedUrl;
    }
    if fetched.bytes.None? {
      return JsonError(500, DownloadFailed), fetchedUrl;
    }
    var imageBuffer := fetched.bytes.value;
    var contentType := ContentType(fetched.contentType);
    var headers := new Headers();
    var ok := headers.Set("Content-Type", contentType);
    if !ok {
      return JsonError(500, DownloadFailed), fetchedUrl;
    }
    ok := headers.Set("Content-Disposition", Disposition(body.filename));
    if !ok {
      return JsonError(500, DownloadFailed), fetchedUrl;
    }
    ok := headers.Set("Content-Length", ToDecimal(|imageBuffer|));
    DecimalIsValidValue(|imageBuffer|);
    ContentTypeKey();
    ContentDispositionKey();
    ContentLengthKey();
    reply := Binary(200, headers.entries, imageBuffer);
  }

  /** A decimal number is always a valid header value and is left as it is. */
  lemma DecimalIsValidValue(n: nat)
    ensures ValidHeaderValue(ToDecimal(n)) && NormalizeHeaderValue(ToDecimal(n)) == ToDecimal(n)
  {
    var s := ToDecimal(n);
    assert IsDigit(s[0]) && IsDigit(s[|s| - 1]);
  }

  /** The disposition is never trimmed: it starts with a letter and ends with a quote. */
  lemma DispositionUnpadded(filename: Option<string>)
    ensures NormalizeHeaderValue(Disposition(filename)) == Disposition(filename)
  {
    var d := Disposition(filename);
    assert d[0] == DispositionPrefix[0];
  }

  /** The disposition is accepted exactly when the file name is: every character fits in a
      byte and none is NUL, CR or LF. A name with a line break or a character beyond U+00FF
      makes the download fail with 500. */
  lemma DispositionValidity(filename: Option<string>)
    ensures var name := if Truthy(filename) then filename.value else DefaultFilename;
            ValidHeaderValue(Disposition(filename)) <==> AllowedInValue(name)
  {
    var d := Disposition(filename);
    var name := if Truthy(filename) then filename.value else DefaultFilename;
    DispositionUnpadded(filename);
    UnpaddedValidity(d);
    assert d == DispositionPrefix + name + "\"";
    PrefixAllowed();
    assert AllowedInValue("\"");
    AllowedWrapped(DispositionPrefix, name, "\"");
  }

  /** A value that normalization leaves alone is valid exactly when its characters are allowed. */
  lemma UnpaddedValidity(v: string)
    requires NormalizeHeaderValue(v) == v
    ensures ValidHeaderValue(v) <==> AllowedInValue(v)
  {
  }

  /** Wrapping between allowed text keeps the allowed-ness of what is wrapped. */
  lemma AllowedWrapped(p: string, name: string, q: string)
    requires AllowedInValue(p) && AllowedInValue(q)
    ensures AllowedInValue(p + name + q) <==> AllowedInValue(name)
  {
    AllowedConcat(p + name, q);
    AllowedConcat(p, name);
  }

  /** On a successful download, `Content-Length` reads back as the number of bytes sent. */
  lemma ContentLengthMatchesBody(contentType: string, disposition: string, bytes: seq<byte>)
    ensures ToNumber(DownloadHeaders(contentType, disposition, |bytes|)["content-length"]) == Finite(|bytes|)
  {
    DecimalIsValidValue(|bytes|);
    ToNumberOfDecimal(|bytes|);
  }
}
