/** The two URL shapes the site opens (`https://wa.me/<number>?text=...` and
    `mailto:<address>?subject=...&body=...`) are built with JavaScript's
    `encodeURIComponent` (ECMA-262 section 19.2.6, URI Handling Functions).
    Its internals (UTF-8 conversion, percent escapes as in section 2.1 of
    RFC 3986) are not modelled: it is a parameter `enc`, and the model
    relies only on the two facts stated here, that its output consists of
    unreserved characters and escapes, and that `decodeURIComponent` undoes
    it. */
module Uri {
  import opened Wrappers
  import opened Text

  /** A character `encodeURIComponent` may emit: ASCII letters and digits,
      the marks `- _ . ! ~ * ' ( )` it leaves alone, and the `%` that opens
      an escape. */
  predicate EncodedChar(c: char) {
    || ('a' <= c <= 'z')
    || ('A' <= c <= 'Z')
    || ('0' <= c <= '9')
    || c in "-_.!~*'()%"
  }

  /** Every character of `s` is one `encodeURIComponent` may emit. */
  predicate Encoded(s: string) {
    forall i :: 0 <= i < |s| ==> EncodedChar(s[i])
  }

  /** `enc` behaves like `encodeURIComponent` as far as the model needs: it
      never emits a character outside the encoded alphabet, so never `&`,
      `?`, `=` or a line break. */
  ghost predicate IsComponentEncoder(enc: string -> string) {
    forall s :: Encoded(enc(s))
  }

  /** `dec` undoes `enc`, as `decodeURIComponent` undoes
      `encodeURIComponent`. */
  ghost predicate Inverts(dec: string -> string, enc: string -> string) {
    forall s :: dec(enc(s)) == s
  }

  /** An encoded component never contains the `&` that separates query
      parameters. */
  lemma EncodedLacksAmpersand(s: string)
    requires Encoded(s)
    ensures Lacks(s, '&')
  {
    forall i | 0 <= i < |s|
      ensures s[i] != '&'
    {
      assert EncodedChar(s[i]);
    }
  }

  /** The text of `url` after a fixed `prefix`, or None when `url` does not
      start with it. */
  function After(prefix: string, url: string): (r: Option<string>)
    ensures r.Some? <==> StartsWith(url, prefix)
    ensures r.Some? ==> url == prefix + r.value
  {
    if StartsWith(url, prefix) then
      assert url == prefix + url[|prefix|..];
      Some(url[|prefix|..])
    else None
  }
}
