/**
 * Display names for history entries (`ClipboardItemNameHelper`, from
 * Buffer/Helpers/ClipboardItemNameHelper.swift): the magic-byte image
 * sniffer, the trimmed and truncated text name, and the image, file and URL
 * names. Foundation's image decoding and URL parsing are passed in as
 * functions.
 */
module NameHelper {
  import opened Wrappers
  import opened Seqs
  import opened ClipboardItems

  /** `maxLength` in `generateTextName`. */
  const MaxTextLength: nat := 50

  /** The length URL names are cut to. */
  const MaxUrlLength: nat := 30

  const Ellipsis: string := "..."

  // ---------------------------------------------------------------- image format

  const JpegSignature: Bytes := [0xFF, 0xD8, 0xFF]
  const PngSignature: Bytes := [0x89, 0x50, 0x4E, 0x47]
  const GifSignature: Bytes := [0x47, 0x49, 0x46]
  const WebpSignature: Bytes := [0x52, 0x49, 0x46, 0x46]
  const IcoSignature: Bytes := [0x00, 0x00, 0x01, 0x00]

  /** `detectImageFormat(from:)`: the first matching signature, or "TIFF". */
  function DetectImageFormat(data: Bytes): (r: string)
    ensures r in {"JPEG", "PNG", "GIF", "WebP", "ICO", "TIFF"}
  {
    if StartsWith(data, JpegSignature) then "JPEG"
    else if StartsWith(data, PngSignature) then "PNG"
    else if StartsWith(data, GifSignature) then "GIF"
    else if StartsWith(data, WebpSignature) then "WebP"
    else if StartsWith(data, IcoSignature) then "ICO"
    else "TIFF"
  }

  /**
   * Each format is reported exactly when the data starts with its
   * signature. The signatures begin with five different bytes, so the order
   * of the tests never matters; "TIFF" is what is left.
   */
  lemma DetectImageFormatExact(data: Bytes)
    ensures DetectImageFormat(data) == "JPEG" <==> StartsWith(data, JpegSignature)
    ensures DetectImageFormat(data) == "PNG" <==> StartsWith(data, PngSignature)
    ensures DetectImageFormat(data) == "GIF" <==> StartsWith(data, GifSignature)
    ensures DetectImageFormat(data) == "WebP" <==> StartsWith(data, WebpSignature)
    ensures DetectImageFormat(data) == "ICO" <==> StartsWith(data, IcoSignature)
    ensures DetectImageFormat(data) == "TIFF" <==>
      !StartsWith(data, JpegSignature) && !StartsWith(data, PngSignature) && !StartsWith(data, GifSignature)
      && !StartsWith(data, WebpSignature) && !StartsWith(data, IcoSignature)
  {
    if |data| >= 3 {
      assert data[..3][0] == data[0];
    }
    if |data| >= 4 {
      assert data[..4][0] == data[0];
    }
  }

  /** A signature of at most four bytes is a prefix of `data` exactly when it is one of its first four bytes. */
  lemma StartsWithTake(data: Bytes, sig: Bytes)
    requires |sig| <= 4
    ensures StartsWith(data, sig) <==> StartsWith(Take(data, 4), sig)
  {
    if |data| > 4 {
      assert Take(data, 4)[..|sig|] == data[..|sig|];
    }
  }

  /** Only the first four bytes are looked at. */
  lemma DetectImageFormatFirstFour(a: Bytes, b: Bytes)
    requires Take(a, 4) == Take(b, 4)
    ensures DetectImageFormat(a) == DetectImageFormat(b)
  {
    StartsWithTake(a, JpegSignature);
    StartsWithTake(b, JpegSignature);
    StartsWithTake(a, PngSignature);
    StartsWithTake(b, PngSignature);
    StartsWithTake(a, GifSignature);
    StartsWithTake(b, GifSignature);
    StartsWithTake(a, WebpSignature);
    StartsWithTake(b, WebpSignature);
    StartsWithTake(a, IcoSignature);
    StartsWithTake(b, IcoSignature);
  }

  /** Data shorter than every signature, the empty data included, is "TIFF". */
  lemma DetectImageFormatShort(data: Bytes)
    requires |data| < 3
    ensures DetectImageFormat(data) == "TIFF"
  {
  }

  // ---------------------------------------------------------------- trimming

  /**
   * Foundation's `CharacterSet.whitespacesAndNewlines`: the Unicode space
   * separators (category Zs), tab, the line and paragraph separators, and the
   * newline characters U+000A to U+000D and U+0085.
   */
  predicate IsWhitespaceOrNewline(c: char) {
    c == ' ' || c == '\t' || ('\n' <= c <= '\r') || c == '\U{0085}' || c == '\U{00A0}'
    || c == '\U{1680}' || ('\U{2000}' <= c <= '\U{200A}') || c == '\U{2028}' || c == '\U{2029}'
    || c == '\U{202F}' || c == '\U{205F}' || c == '\U{3000}'
  }

  predicate AllWhitespace(s: string) {
    forall i :: 0 <= i < |s| ==> IsWhitespaceOrNewline(s[i])
  }

  /** `s` without its leading whitespace. */
  function TrimLeading(s: string): (r: string)
    ensures |r| <= |s| && r == s[|s| - |r|..]
    ensures AllWhitespace(s[..|s| - |r|])
    ensures r == [] || !IsWhitespaceOrNewline(r[0])
    decreases |s|
  {
    if s != [] && IsWhitespaceOrNewline(s[0]) then
      var r := TrimLeading(s[1..]);
      assert s[|s| - |r|..] == s[1..][|s| - 1 - |r|..];
      assert s[..|s| - |r|] == [s[0]] + s[1..][..|s| - 1 - |r|];
      r
    else s
  }

  /** `s` without its trailing whitespace. */
  function TrimTrailing(s: string): (r: string)
    ensures |r| <= |s| && r == s[..|r|]
    ensures AllWhitespace(s[|r|..])
    ensures r == [] || !IsWhitespaceOrNewline(r[|r| - 1])
    decreases |s|
  {
    if s != [] && IsWhitespaceOrNewline(s[|s| - 1]) then
      var r := TrimTrailing(s[..|s| - 1]);
      assert s[..|r|] == s[..|s| - 1][..|r|];
      assert s[|r|..] == s[..|s| - 1][|r|..] + [s[|s| - 1]];
      r
    else s
  }

  /** `trimmingCharacters(in: .whitespacesAndNewlines)`. */
  function Trim(s: string): (r: string)
    ensures |r| <= |s|
    ensures r == [] || (!IsWhitespaceOrNewline(r[0]) && !IsWhitespaceOrNewline(r[|r| - 1]))
  {
    TrimTrailing(TrimLeading(s))
  }

  /**
   * The trimmed string is the slice of `s` between a run of leading and a
   * run of trailing whitespace, and neither of its ends is whitespace.
   */
  lemma TrimSlice(s: string) returns (lo: nat, hi: nat)
    ensures lo <= hi <= |s| && Trim(s) == s[lo..hi]
    ensures AllWhitespace(s[..lo]) && AllWhitespace(s[hi..])
    ensures Trim(s) == [] || (!IsWhitespaceOrNewline(Trim(s)[0]) && !IsWhitespaceOrNewline(Trim(s)[|Trim(s)| - 1]))
  {
    var l := TrimLeading(s);
    lo := |s| - |l|;
    hi := lo + |Trim(s)|;
    assert s[lo..hi] == l[..|Trim(s)|];
    assert s[hi..] == l[|Trim(s)|..];
  }

  /** Trimming leaves nothing exactly when the string is all whitespace. */
  lemma TrimEmpty(s: string)
    ensures Trim(s) == [] <==> AllWhitespace(s)
  {
    var lo, hi := TrimSlice(s);
    if Trim(s) == [] {
      assert lo == hi;
      forall i | 0 <= i < |s|
        ensures IsWhitespaceOrNewline(s[i])
      {
        if i < lo {
          assert s[i] == s[..lo][i];
        } else {
          assert s[i] == s[hi..][i - hi];
        }
      }
    }
  }

  /** Trimming twice is trimming once. */
  lemma TrimIdempotent(s: string)
    ensures Trim(Trim(s)) == Trim(s)
  {
    var t := Trim(s);
    assert TrimLeading(t) == t by {
      if t != [] {
        assert t == TrimTrailing(TrimLeading(s));
      }
    }
  }

  // ---------------------------------------------------------------- names

  /** `s` when it has at most `max` characters, else its first `max` followed by "...". */
  function Truncate(s: string, max: nat): (r: string)
    ensures |r| <= max + |Ellipsis|
    ensures |s| <= max ==> r == s
    ensures |s| > max ==> |r| == max + |Ellipsis| && r[..max] == s[..max] && EndsWith(r, Ellipsis)
  {
    if |s| > max then s[..max] + Ellipsis else s
  }

  /** `generateTextName(content:)`. */
  function GenerateTextName(content: string): (r: string)
    ensures |r| <= MaxTextLength + |Ellipsis|
    ensures r != []
  {
    if content == [] then "Empty Text"
    else
      var trimmed := Trim(content);
      if trimmed == [] then "Empty Text"
      else Truncate(trimmed, MaxTextLength)
  }

  /** Empty or all-whitespace content is named "Empty Text". */
  lemma TextNameBlank(content: string)
    requires AllWhitespace(content)
    ensures GenerateTextName(content) == "Empty Text"
  {
    TrimEmpty(content);
  }

  /** Content that trims to something non-blank of at most 50 characters is named by its trimmed text. */
  lemma TextNameFits(content: string)
    requires !AllWhitespace(content) && |Trim(content)| <= MaxTextLength
    ensures GenerateTextName(content) == Trim(content)
  {
    TrimEmpty(content);
  }

  /** Longer trimmed text is cut to its first 50 characters plus "...", 53 in all. */
  lemma TextNameTruncated(content: string)
    requires |Trim(content)| > MaxTextLength
    ensures |GenerateTextName(content)| == MaxTextLength + 3
    ensures GenerateTextName(content) == Trim(content)[..MaxTextLength] + "..."
  {
  }

  /**
   * Every text name is "Empty Text", or a slice of the content, or a slice of
   * the content of 50 characters followed by "...".
   */
  lemma TextNameFromContent(content: string)
    ensures var r := GenerateTextName(content);
      r == "Empty Text" || Contains(content, r)
      || (|r| == MaxTextLength + 3 && EndsWith(r, Ellipsis) && Contains(content, r[..MaxTextLength]))
  {
    var t := Trim(content);
    if content != [] && t != [] {
      var lo, hi := TrimSlice(content);
      if |t| <= MaxTextLength {
        SliceContained(content, lo, hi, |t|);
        assert t[..|t|] == t;
      } else {
        var r := GenerateTextName(content);
        assert r[..MaxTextLength] == t[..MaxTextLength];
        SliceContained(content, lo, hi, MaxTextLength);
      }
    }
  }

  /** `generateRichTextName(content:)` names rich text like plain text. */
  function GenerateRichTextName(content: string): (r: string)
    ensures r == GenerateTextName(content)
  {
    GenerateTextName(content)
  }

  /** What `NSImage(data:)` reports: its `size`, already cut to whole points by `Int(...)`. */
  datatype ImageSize = ImageSize(width: int, height: int)

  function DigitChar(d: nat): (c: char)
    requires d < 10
    ensures '0' <= c <= '9'
  {
    ('0' as int + d) as char
  }

  /** Decimal digits of `n`, most significant first, with no leading zero. */
  function NatToString(n: nat): (r: string)
    ensures r != []
    ensures forall i :: 0 <= i < |r| ==> '0' <= r[i] <= '9'
    ensures |r| > 1 ==> r[0] != '0'
    decreases n
  {
    if n < 10 then [DigitChar(n)] else NatToString(n / 10) + [DigitChar(n % 10)]
  }

  /** The number a string of decimal digits denotes. */
  function DigitsValue(s: string): nat
    requires forall i :: 0 <= i < |s| ==> '0' <= s[i] <= '9'
  {
    if s == [] then 0 else DigitsValue(s[..|s| - 1]) * 10 + (s[|s| - 1] as int - '0' as int)
  }

  /** Reading the digits back gives the number. */
  lemma {:induction false} NatToStringRoundTrip(n: nat)
    ensures DigitsValue(NatToString(n)) == n
    decreases n
  {
    if n >= 10 {
      NatToStringRoundTrip(n / 10);
      var r := NatToString(n);
      assert r[..|r| - 1] == NatToString(n / 10);
    }
  }

  /** String interpolation of an `Int`. */
  function IntToString(i: int): (r: string)
    ensures r != []
    ensures i < 0 <==> r[0] == '-'
  {
    if i < 0 then "-" + NatToString(-i) else NatToString(i)
  }

  /**
   * `generateImageName(data:)`: "Image" without data or when `decode` (the
   * `NSImage` decoder) cannot read it, else the sniffed format and the size,
   * as in "PNG Image 640×480".
   */
  function GenerateImageName(data: Option<Bytes>, decode: Bytes -> Option<ImageSize>): (r: string)
    ensures data.None? ==> r == "Image"
    ensures data.Some? && decode(data.value).None? ==> r == "Image"
    ensures data.Some? && decode(data.value).Some? ==>
      StartsWith(r, DetectImageFormat(data.value) + " Image ")
  {
    match data
    case None => "Image"
    case Some(bytes) =>
      match decode(bytes)
      case None => "Image"
      case Some(size) =>
        DetectImageFormat(bytes) + " Image " + IntToString(size.width) + "×" + IntToString(size.height)
  }

  /** What `URL(string:)` reports about a parsed URL. */
  datatype ParsedUrl = ParsedUrl(scheme: Option<string>, host: Option<string>, lastPathComponent: string, pathExtension: string)

  /**
   * `generateFileName(content:)`: the URL's last path component (or the
   * content itself when it does not parse), "Folder" or "File" standing in
   * for an empty one.
   */
  function GenerateFileName(content: string, parse: string -> Option<ParsedUrl>): (r: string)
    ensures content == [] ==> r == "File"
  {
    if content == [] then "File"
    else
      var url := parse(content);
      var fileName := if url.Some? then url.value.lastPathComponent else content;
      if EndsWith(content, "/") then (if fileName == [] then "Folder" else fileName)
      else if url.Some? && url.value.pathExtension != [] then fileName
      else if fileName == [] then "File"
      else fileName
  }

  /**
   * A file name is never empty (when the path has an extension its last
   * component is not empty), and it is "File", "Folder", the content, or the
   * URL's last path component.
   */
  lemma FileNameShape(content: string, parse: string -> Option<ParsedUrl>)
    requires parse(content).Some? && parse(content).value.pathExtension != [] ==> parse(content).value.lastPathComponent != []
    ensures var r := GenerateFileName(content, parse);
      r != [] && (r == "File" || r == "Folder" || r == content
        || (parse(content).Some? && r == parse(content).value.lastPathComponent))
  {
  }

  /** `generateURLName(content:)`. */
  function GenerateUrlName(content: string, parse: string -> Option<ParsedUrl>): (r: string)
    ensures content == [] ==> r == "URL"
    ensures content != [] && parse(content).None? ==> r == Truncate(content, MaxUrlLength)
  {
    if content == [] then "URL"
    else
      match parse(content)
      case None => Truncate(content, MaxUrlLength)
      case Some(url) =>
        if url.scheme == Some("file") then (if url.lastPathComponent == [] then "File" else url.lastPathComponent)
        else if url.pathExtension != [] then url.lastPathComponent
        else if url.host.Some? then url.host.value
        else Truncate(content, MaxUrlLength)
  }

  /**
   * A parsed URL is named by its file name when it is a file URL or has an
   * extension, else by its host, else by the content cut to 30 characters.
   */
  lemma UrlNameCases(content: string, parse: string -> Option<ParsedUrl>)
    requires content != [] && parse(content).Some?
    ensures var url := parse(content).value;
      var r := GenerateUrlName(content, parse);
      (url.scheme == Some("file") ==> r == (if url.lastPathComponent == [] then "File" else url.lastPathComponent))
      && (url.scheme != Some("file") && url.pathExtension != [] ==> r == url.lastPathComponent)
      && (url.scheme != Some("file") && url.pathExtension == [] && url.host.Some? ==> r == url.host.value)
      && (url.scheme != Some("file") && url.pathExtension == [] && url.host.None? ==> r == Truncate(content, MaxUrlLength))
  {
  }
}
