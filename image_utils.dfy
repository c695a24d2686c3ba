/** The image helpers of eco-wardrobe-frontend/src/lib/utils.ts: building `data:` URLs
    (the `data:[<mediatype>][;base64],<data>` form of section 2 of RFC 2397) with MIME
    sniffing, picking a product's image, converting the backend's image field, the
    chunked byte-array encoder and its decoder, and the resize rule of `compressImage`. */
module ImageUtils {
  import opened Optional
  import opened Text
  import opened JsMath
  import opened Base64

  // ---------------------------------------------------------------------------
  // `base64ToDataUrl`

  /** The characters of the regular expression class `\s`: the ECMAScript white space and
      line terminators. */
  predicate IsJsWhitespace(c: char)
  {
    c == '\t' || c == '\n' || c == '\U{B}' || c == '\U{C}' || c == '\r' || c == ' '
    || c == '\U{A0}' || c == '\U{1680}' || ('\U{2000}' <= c <= '\U{200A}')
    || c == '\U{2028}' || c == '\U{2029}' || c == '\U{202F}' || c == '\U{205F}'
    || c == '\U{3000}' || c == '\U{FEFF}'
  }

  /** `s.replace(/\s/g, '')` */
  function RemoveJsWhitespace(s: string): string
  {
    if |s| == 0 then "" else (if IsJsWhitespace(s[0]) then "" else [s[0]]) + RemoveJsWhitespace(s[1..])
  }

  /** The cleaned payload keeps exactly the non-whitespace characters, in order. */
  lemma {:induction false} RemoveJsWhitespaceSpec(s: string)
    ensures forall i :: 0 <= i < |RemoveJsWhitespace(s)| ==> !IsJsWhitespace(RemoveJsWhitespace(s)[i])
    ensures (forall i :: 0 <= i < |s| ==> !IsJsWhitespace(s[i])) ==> RemoveJsWhitespace(s) == s
    ensures |RemoveJsWhitespace(s)| <= |s|
  {
    if |s| > 0 {
      RemoveJsWhitespaceSpec(s[1..]);
    }
  }

  /** The type guessed from the first characters of a base64 payload. */
  function SniffMimeType(clean: string): (mime: string)
    ensures mime in {"image/png", "image/gif", "image/webp", "image/jpeg"}
  {
    if StartsWith(clean, "iVBOR") then "image/png"
    else if StartsWith(clean, "R0lGOD") then "image/gif"
    else if StartsWith(clean, "UklGR") then "image/webp"
    else "image/jpeg"
  }

  /** `!mimeType`: both an absent and an empty type are replaced by the sniffed one. */
  function ChosenMimeType(clean: string, mimeType: Option<string>): string
  {
    if mimeType.None? || mimeType.value == "" then SniffMimeType(clean) else mimeType.value
  }

  /** `base64ToDataUrl(base64, mimeType?)` */
  function Base64ToDataUrl(base64: string, mimeType: Option<string>): (url: string)
    ensures StartsWith(base64, "data:") ==> url == base64
    ensures StartsWith(url, "data:")
  {
    if StartsWith(base64, "data:") then base64
    else
      var clean := RemoveJsWhitespace(base64);
      var url := "data:" + ChosenMimeType(clean, mimeType) + ";base64," + clean;
      StartsWithIff(url, "data:");
      assert url[..5] == "data:";
      url
  }

  /** A second application changes nothing, whatever type is passed the second time. */
  lemma DataUrlIdempotent(base64: string, m1: Option<string>, m2: Option<string>)
    ensures Base64ToDataUrl(Base64ToDataUrl(base64, m1), m2) == Base64ToDataUrl(base64, m1)
  {
  }

  /** Any other input becomes `data:<type>;base64,<payload>`, where the payload is the input
      without its whitespace and the type is the one passed, or the sniffed one when none
      or an empty one is passed. */
  lemma DataUrlShape(base64: string, mimeType: Option<string>)
    requires !StartsWith(base64, "data:")
    ensures var clean := RemoveJsWhitespace(base64);
      Base64ToDataUrl(base64, mimeType)
      == "data:" + (if mimeType.Some? && mimeType.value != "" then mimeType.value else SniffMimeType(clean))
         + ";base64," + clean
  {
  }

  /** PNG, GIF and WebP signatures are recognised; everything else, the JPEG signature
      `/9j/` included, is labelled JPEG. */
  lemma SniffTable(clean: string)
    ensures StartsWith(clean, "iVBOR") ==> SniffMimeType(clean) == "image/png"
    ensures !StartsWith(clean, "iVBOR") && StartsWith(clean, "R0lGOD") ==> SniffMimeType(clean) == "image/gif"
    ensures !StartsWith(clean, "iVBOR") && !StartsWith(clean, "R0lGOD") && StartsWith(clean, "UklGR")
            ==> SniffMimeType(clean) == "image/webp"
    ensures StartsWith(clean, "/9j/") ==> SniffMimeType(clean) == "image/jpeg"
    ensures !StartsWith(clean, "iVBOR") && !StartsWith(clean, "R0lGOD") && !StartsWith(clean, "UklGR")
            ==> SniffMimeType(clean) == "image/jpeg"
  {
    if StartsWith(clean, "/9j/") {
      StartsWithIff(clean, "/9j/");
      StartsWithIff(clean, "iVBOR");
      StartsWithIff(clean, "R0lGOD");
      StartsWithIff(clean, "UklGR");
      assert clean[0] == '/';
    }
  }

  // ---------------------------------------------------------------------------
  // `getProductImageUrl`

  /** `getProductImageUrl({image, imageUrl})`: a non-empty `image` wins and is made a data
      URL with a sniffed type; otherwise `imageUrl` is returned as it is. */
  function ProductImageUrl(image: Option<string>, imageUrl: Option<string>): (url: Option<string>)
    ensures image.Some? && image.value != "" ==> url.Some? && StartsWith(url.value, "data:")
    ensures image.Some? && image.value != "" && StartsWith(image.value, "data:") ==> url == image
    ensures image.None? || image.value == "" ==> url == imageUrl
  {
    if image.Some? && image.value != "" then Some(Base64ToDataUrl(image.value, None)) else imageUrl
  }

  // ---------------------------------------------------------------------------
  // `byteArrayToBase64` and `base64ToByteArray`

  /** `new Uint8Array(byteArray)` stores each integer modulo 256. */
  function ToUint8(n: int): Byte
  {
    n % 256
  }

  function ToUint8s(ns: seq<int>): (b: seq<Byte>)
    ensures |b| == |ns| && forall i :: 0 <= i < |ns| ==> b[i] == ToUint8(ns[i])
  {
    if |ns| == 0 then [] else [ToUint8(ns[0])] + ToUint8s(ns[1..])
  }

  lemma FromCodesConcat(a: seq<Byte>, b: seq<Byte>)
    ensures FromCodes(a + b) == FromCodes(a) + FromCodes(b)
  {
    var l, r := FromCodes(a + b), FromCodes(a) + FromCodes(b);
    assert forall i :: 0 <= i < |l| ==> l[i] as int == r[i] as int;
  }

  lemma CodesFromCodes(b: seq<Byte>)
    ensures Codes(FromCodes(b)) == b
  {
  }

  /** The chunk loop of `byteArrayToBase64` for any chunk size: each chunk is turned into
      characters with `String.fromCharCode` and appended, then `btoa` encodes the whole. */
  method ByteArrayToBase64Chunked(byteArray: seq<int>, chunkSize: nat) returns (encoded: string)
    requires chunkSize > 0
    ensures encoded == Encode(ToUint8s(byteArray))
  {
    var bytes := ToUint8s(byteArray);
    var binary := "";
    var i := 0;
    while i < |bytes|
      invariant 0 <= i
      invariant binary == FromCodes(bytes[..MinInt(i, |bytes|)])
      decreases |bytes| - i
    {
      var end := MinInt(i + chunkSize, |bytes|);
      var chunk := bytes[i..end];
      FromCodesConcat(bytes[..i], chunk);
      assert bytes[..i] + chunk == bytes[..end];
      binary := binary + FromCodes(chunk);
      i := i + chunkSize;
    }
    assert bytes[..MinInt(i, |bytes|)] == bytes;
    CodesFromCodes(bytes);
    encoded := Btoa(binary).value;
  }

  /** The chunk size `byteArrayToBase64` uses. */
  const ChunkSize: nat := 0x8000

  /** `byteArrayToBase64(byteArray)`: the result is the base64 encoding of the bytes, so it
      does not depend on the chunk size. */
  method ByteArrayToBase64(byteArray: seq<int>) returns (encoded: string)
    ensures encoded == Encode(ToUint8s(byteArray))
  {
    encoded := ByteArrayToBase64Chunked(byteArray, ChunkSize);
  }

  /** `base64ToByteArray(base64)`: `None` when `atob` throws. */
  function Base64ToByteArray(base64: string): (bytes: Option<seq<int>>)
    ensures bytes.Some? <==> Decode(base64).Some?
    ensures bytes.Some? ==> bytes.value == Decode(base64).value
  {
    match Atob(base64)
    case None => None
    case Some(binary) =>
      CodesFromCodes(Decode(base64).value);
      Some(Codes(binary))
  }

  /** Decoding the encoding of an array gives back its values modulo 256. */
  lemma ByteArrayRoundTrip(byteArray: seq<int>)
    ensures Base64ToByteArray(Encode(ToUint8s(byteArray))) == Some(ToUint8s(byteArray))
  {
    DecodeEncode(ToUint8s(byteArray));
  }

  /** An array whose values all lie in 0..255 comes back unchanged. */
  lemma ByteArrayRoundTripInRange(byteArray: seq<int>)
    requires forall i :: 0 <= i < |byteArray| ==> 0 <= byteArray[i] < 256
    ensures Base64ToByteArray(Encode(ToUint8s(byteArray))) == Some(byteArray)
  {
    ByteArrayRoundTrip(byteArray);
    ToUint8sOfBytes(byteArray);
  }

  lemma {:induction false} ToUint8sOfBytes(ns: seq<int>)
    requires forall i :: 0 <= i < |ns| ==> 0 <= ns[i] < 256
    ensures ToUint8s(ns) == ns
  {
    if |ns| > 0 {
      ToUint8sOfBytes(ns[1..]);
      assert ToUint8(ns[0]) == ns[0];
    }
  }

  // ---------------------------------------------------------------------------
  // `convertBackendImageToBase64`

  /** The image field the backend sends: absent, a base64 string or a byte array. */
  datatype BackendImage = Null | Undefined | Text(text: string) | Bytes(bytes: seq<int>)

  /** `convertBackendImageToBase64(image)` */
  method ConvertBackendImageToBase64(image: BackendImage) returns (r: Option<string>)
    ensures image.Null? || image.Undefined? ==> r == None
    ensures image.Text? ==> r == (if image.text == "" then None else Some(image.text))
    ensures image.Bytes? ==> r == (if |image.bytes| == 0 then None else Some(Encode(ToUint8s(image.bytes))))
  {
    match image {
      case Null => return None;
      case Undefined => return None;
      case Text(s) =>
        if s == "" {
          return None;
        }
        return Some(s);
      case Bytes(b) =>
        if |b| > 0 {
          var encoded := ByteArrayToBase64(b);
          return Some(encoded);
        }
        return None;
    }
  }

  // ---------------------------------------------------------------------------
  // The resize rule of `compressImage`

  /** The new width and height: the longer side (the height on a tie) is brought down to
      its bound when it exceeds it, and the other side is scaled by the same factor and
      rounded. */
  method ResizeDimensions(imgWidth: nat, imgHeight: nat, maxWidth: nat, maxHeight: nat)
    returns (width: nat, height: nat)
    ensures imgWidth <= maxWidth && imgHeight <= maxHeight ==> width == imgWidth && height == imgHeight
    ensures imgWidth > imgHeight && imgWidth <= maxWidth ==> width == imgWidth && height == imgHeight
    ensures imgWidth <= imgHeight && imgHeight <= maxHeight ==> width == imgWidth && height == imgHeight
    ensures imgWidth > imgHeight && imgWidth > maxWidth ==>
      width == maxWidth && height == Round((imgHeight * maxWidth) as real / imgWidth as real)
    ensures imgWidth <= imgHeight && imgHeight > maxHeight ==>
      height == maxHeight && width == Round((imgWidth * maxHeight) as real / imgHeight as real)
    ensures maxWidth == maxHeight ==> width <= maxWidth && height <= maxHeight
    ensures width <= MaxInt(imgWidth, imgHeight) && height <= MaxInt(imgWidth, imgHeight)
  {
    width := imgWidth;
    height := imgHeight;
    if width > height {
      if width > maxWidth {
        ScaledSideBelow(height, maxWidth, width);
        height := Round((height * maxWidth) as real / width as real);
        width := maxWidth;
      }
    } else {
      if height > maxHeight {
        ScaledSideBelow(width, maxHeight, height);
        width := Round((width * maxHeight) as real / height as real);
        height := maxHeight;
      }
    }
  }

  /** The scaled shorter side stays between 0 and the bound. */
  lemma ScaledSideBelow(short: nat, bound: nat, long: nat)
    requires short <= long && bound < long
    ensures 0 <= Round((short * bound) as real / long as real) <= bound
  {
    var x := (short * bound) as real / long as real;
    assert (short * bound) as real <= (long * bound) as real;
    assert x <= bound as real;
    RoundBetween(x, 0, bound);
  }
}
