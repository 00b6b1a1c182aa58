/** The suffix-to-media-type mapping that the URL-list and folder
    slideshows use as their `_get_content_type`, and the extension filter
    the folder slideshow applies when it lists a folder. */
module ContentTypes {
  import opened Protocol

  /** Python's `str.lower` on one character, for the ASCII letters. */
  function LowerChar(c: char): char {
    if 'A' <= c <= 'Z' then (c as int + 32) as char else c
  }

  /** `s.lower()`, for the ASCII letters. */
  function Lower(s: string): (r: string)
    ensures |r| == |s|
    ensures forall i :: 0 <= i < |s| ==> r[i] == LowerChar(s[i])
  {
    if s == [] then [] else [LowerChar(s[0])] + Lower(s[1..])
  }

  /** `s.endswith(suffix)`. */
  predicate EndsWith(s: string, suffix: string) {
    |suffix| <= |s| && s[|s| - |suffix|..] == suffix
  }

  /** `_get_content_type(url)` of the URL-list and folder slideshows: the
      first matching suffix of the lower-cased URL decides. A media type is
      found exactly when the lower-cased URL ends with one of the
      extensions the folder slideshow keeps. */
  function ContentTypeOf(url: string): (r: Option<string>)
    ensures r.Some? <==> exists e :: e in FolderExtensions && EndsWith(Lower(url), e)
  {
    TypeOfLowered(Lower(url))
  }

  /** The suffix tests of `_get_content_type`, on an already lower-cased
      URL: they succeed exactly for the extensions of the folder filter. */
  function TypeOfLowered(u: string): (r: Option<string>)
    ensures r.Some? <==> exists e :: e in FolderExtensions && EndsWith(u, e)
  {
    KnownSuffix(u);
    if EndsWith(u, ".jpg") || EndsWith(u, ".jpeg") then Some("image/jpeg")
    else if EndsWith(u, ".png") then Some("image/png")
    else if EndsWith(u, ".gif") then Some("image/gif")
    else if EndsWith(u, ".webp") then Some("image/webp")
    else if EndsWith(u, ".mp4") then Some("video/mp4")
    else if EndsWith(u, ".webm") then Some("video/webm")
    else if EndsWith(u, ".ogg") then Some("video/ogg")
    else None
  }

  /** Ending with one of the folder extensions is the disjunction of the
      eight suffix tests. */
  lemma KnownSuffix(u: string)
    ensures (exists e :: e in FolderExtensions && EndsWith(u, e)) <==>
              EndsWith(u, ".jpg") || EndsWith(u, ".jpeg") || EndsWith(u, ".png") ||
              EndsWith(u, ".gif") || EndsWith(u, ".webp") || EndsWith(u, ".mp4") ||
              EndsWith(u, ".webm") || EndsWith(u, ".ogg")
  {
    if EndsWith(u, ".jpg") || EndsWith(u, ".jpeg") || EndsWith(u, ".png") ||
       EndsWith(u, ".gif") || EndsWith(u, ".webp") || EndsWith(u, ".mp4") ||
       EndsWith(u, ".webm") || EndsWith(u, ".ogg") {
      var e := if EndsWith(u, ".jpg") then ".jpg" else if EndsWith(u, ".jpeg") then ".jpeg"
               else if EndsWith(u, ".png") then ".png" else if EndsWith(u, ".gif") then ".gif"
               else if EndsWith(u, ".webp") then ".webp" else if EndsWith(u, ".mp4") then ".mp4"
               else if EndsWith(u, ".webm") then ".webm" else ".ogg";
      assert e in FolderExtensions && EndsWith(u, e);
    }
  }

  /** The suffixes the folder slideshow keeps (compared lower-cased). */
  const FolderExtensions: seq<string> := [".jpg", ".jpeg", ".png", ".gif", ".webp", ".mp4", ".webm", ".ogg"]

  /** The media type each extension stands for, one entry per extension. */
  function MediaTypeOf(ext: string): Option<string> {
    if ext == ".jpg" then Some("image/jpeg")
    else if ext == ".jpeg" then Some("image/jpeg")
    else if ext == ".png" then Some("image/png")
    else if ext == ".gif" then Some("image/gif")
    else if ext == ".webp" then Some("image/webp")
    else if ext == ".mp4" then Some("video/mp4")
    else if ext == ".webm" then Some("video/webm")
    else if ext == ".ogg" then Some("video/ogg")
    else None
  }

  lemma LowerIdempotent(s: string)
    ensures Lower(Lower(s)) == Lower(s)
  {
    assert forall i :: 0 <= i < |s| ==> Lower(Lower(s))[i] == Lower(s)[i];
  }

  lemma LowerAppend(a: string, b: string)
    ensures Lower(a + b) == Lower(a) + Lower(b)
  {
    assert forall i :: 0 <= i < |a + b| ==> Lower(a + b)[i] == (Lower(a) + Lower(b))[i];
  }

  /** The mapping ignores case: a URL and its lower-cased form get the
      same answer. */
  lemma ContentTypeIgnoresCase(url: string)
    ensures ContentTypeOf(Lower(url)) == ContentTypeOf(url)
  {
    LowerIdempotent(url);
  }

  /** Whether `p + e` ends with `suffix` is decided by `e` alone: `e` ends
      with `suffix`, or `suffix` is longer and ends with `e`. */
  lemma EndsWithAppend(p: string, e: string, suffix: string)
    ensures EndsWith(p + e, suffix) ==>
              if |suffix| <= |e| then EndsWith(e, suffix) else EndsWith(suffix, e)
  {
    var s := p + e;
    if EndsWith(s, suffix) {
      if |suffix| <= |e| {
        assert s[|s| - |suffix|..] == e[|e| - |suffix|..];
      } else {
        assert suffix[|suffix| - |e|..] == s[|s| - |e|..] == e;
      }
    }
  }

  lemma EndsWithSelf(p: string, e: string)
    ensures EndsWith(p + e, e)
  {
    assert (p + e)[|p + e| - |e|..] == e;
  }

  /** Appending `e` rules out a suffix that `e` does not end with and
      that does not end with `e`. */
  lemma NotEndsWithAppend(p: string, e: string, suffix: string)
    requires if |suffix| <= |e| then !EndsWith(e, suffix) else !EndsWith(suffix, e)
    ensures !EndsWith(p + e, suffix)
  {
    EndsWithAppend(p, e, suffix);
  }

  lemma SuffixJpg(p: string)
    ensures TypeOfLowered(p + ".jpg") == MediaTypeOf(".jpg")
  {
    EndsWithSelf(p, ".jpg");
  }

  lemma SuffixJpeg(p: string)
    ensures TypeOfLowered(p + ".jpeg") == MediaTypeOf(".jpeg")
  {
    EndsWithSelf(p, ".jpeg");
  }

  lemma SuffixPng(p: string)
    ensures TypeOfLowered(p + ".png") == MediaTypeOf(".png")
  {
    EndsWithSelf(p, ".png");
    NotEndsWithAppend(p, ".png", ".jpg");
    NotEndsWithAppend(p, ".png", ".jpeg");
  }

  lemma SuffixGif(p: string)
    ensures TypeOfLowered(p + ".gif") == MediaTypeOf(".gif")
  {
    EndsWithSelf(p, ".gif");
    NotEndsWithAppend(p, ".gif", ".jpg");
    NotEndsWithAppend(p, ".gif", ".jpeg");
    NotEndsWithAppend(p, ".gif", ".png");
  }

  lemma SuffixWebp(p: string)
    ensures TypeOfLowered(p + ".webp") == MediaTypeOf(".webp")
  {
    EndsWithSelf(p, ".webp");
    NotEndsWithAppend(p, ".webp", ".jpg");
    NotEndsWithAppend(p, ".webp", ".jpeg");
    NotEndsWithAppend(p, ".webp", ".png");
    NotEndsWithAppend(p, ".webp", ".gif");
  }

  lemma SuffixMp4(p: string)
    ensures TypeOfLowered(p + ".mp4") == MediaTypeOf(".mp4")
  {
    EndsWithSelf(p, ".mp4");
    NotEndsWithAppend(p, ".mp4", ".jpg");
    NotEndsWithAppend(p, ".mp4", ".jpeg");
    NotEndsWithAppend(p, ".mp4", ".png");
    NotEndsWithAppend(p, ".mp4", ".gif");
    NotEndsWithAppend(p, ".mp4", ".webp");
  }

  lemma SuffixWebm(p: string)
    ensures TypeOfLowered(p + ".webm") == MediaTypeOf(".webm")
  {
    EndsWithSelf(p, ".webm");
    NotEndsWithAppend(p, ".webm", ".jpg");
    NotEndsWithAppend(p, ".webm", ".jpeg");
    NotEndsWithAppend(p, ".webm", ".png");
    NotEndsWithAppend(p, ".webm", ".gif");
    NotEndsWithAppend(p, ".webm", ".webp");
    NotEndsWithAppend(p, ".webm", ".mp4");
  }

  lemma SuffixOgg(p: string)
    ensures TypeOfLowered(p + ".ogg") == MediaTypeOf(".ogg")
  {
    EndsWithSelf(p, ".ogg");
    NotEndsWithAppend(p, ".ogg", ".jpg");
    NotEndsWithAppend(p, ".ogg", ".jpeg");
    NotEndsWithAppend(p, ".ogg", ".png");
    NotEndsWithAppend(p, ".ogg", ".gif");
    NotEndsWithAppend(p, ".ogg", ".webp");
    NotEndsWithAppend(p, ".ogg", ".mp4");
    NotEndsWithAppend(p, ".ogg", ".webm");
  }

  /** Every extension the folder slideshow keeps, in any letter case,
      yields its media type, whatever precedes it. */
  lemma ContentTypeOfExtension(prefix: string, ext: string)
    requires Lower(ext) in FolderExtensions
    ensures MediaTypeOf(Lower(ext)).Some?
    ensures ContentTypeOf(prefix + ext) == MediaTypeOf(Lower(ext))
  {
    var e := Lower(ext);
    var p := Lower(prefix);
    LowerAppend(prefix, ext);
    if e == ".jpg" { SuffixJpg(p); }
    else if e == ".jpeg" { SuffixJpeg(p); }
    else if e == ".png" { SuffixPng(p); }
    else if e == ".gif" { SuffixGif(p); }
    else if e == ".webp" { SuffixWebp(p); }
    else if e == ".mp4" { SuffixMp4(p); }
    else if e == ".webm" { SuffixWebm(p); }
    else { SuffixOgg(p); }
  }

  /** Cutting characters off the front keeps the answer to `endswith` for a
      suffix no longer than what is left. */
  lemma EndsWithTail(u: string, k: nat, e: string)
    requires k <= |u| && (k == 0 || |e| <= |u| - k)
    ensures EndsWith(u, e) <==> EndsWith(u[k..], e)
  {
    if k == 0 {
      assert u[k..] == u;
    } else {
      assert u[|u| - |e|..] == u[k..][|u| - k - |e|..];
    }
  }

  /** Only the last five characters matter (the longest known extension
      has five). */
  lemma ContentTypeBySuffix(url: string)
    ensures var k := if |url| < 5 then 0 else |url| - 5;
            ContentTypeOf(url) == ContentTypeOf(url[k..])
  {
    var k := if |url| < 5 then 0 else |url| - 5;
    var u := Lower(url);
    assert Lower(url[k..]) == u[k..];
    EndsWithTail(u, k, ".jpg");
    EndsWithTail(u, k, ".jpeg");
    EndsWithTail(u, k, ".png");
    EndsWithTail(u, k, ".gif");
    EndsWithTail(u, k, ".webp");
    EndsWithTail(u, k, ".mp4");
    EndsWithTail(u, k, ".webm");
    EndsWithTail(u, k, ".ogg");
  }
}
