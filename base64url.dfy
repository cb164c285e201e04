/**
 * `urlBase64ToUint8Array` (app.js:317-324): the VAPID public key arrives in
 * the URL-safe alphabet of section 5 of RFC 4648 with its padding dropped; the
 * page pads it to a multiple of four, maps `-` and `_` back to `+` and `/`,
 * hands the result to `atob` and copies the decoded characters into a
 * `Uint8Array`.
 *
 * `atob` itself is a parameter: it is the browser's base64 decoder, `None`
 * standing for the exception it throws on malformed input.
 */
module Base64Url {
  import opened Wrappers
  import opened Strings

  newtype byte = x: int | 0 <= x < 256

  /** `"=".repeat(n)`. */
  function Pad(n: nat): string {
    seq(n, _ => '=')
  }

  /** `(4 - (n % 4)) % 4`: the number of `=` that brings a length up to a multiple of four. */
  function Padding(n: nat): (p: nat)
    ensures p < 4 && (n + p) % 4 == 0
  {
    (4 - n % 4) % 4
  }

  /** The padding is the only count below four that completes a multiple of four. */
  lemma PaddingUnique(len: nat, n: nat)
    requires n < 4 && (len + n) % 4 == 0
    ensures Padding(len) == n
  {
  }

  /** The standard-alphabet character for a URL-safe one. */
  function StdChar(c: char): char {
    if c == '-' then '+' else if c == '_' then '/' else c
  }

  /** The URL-safe character for a standard-alphabet one (section 5 of RFC 4648). */
  function UrlChar(c: char): char {
    if c == '+' then '-' else if c == '/' then '_' else c
  }

  function StdChars(s: string): string {
    seq(|s|, i requires 0 <= i < |s| => StdChar(s[i]))
  }

  function UrlChars(s: string): string {
    seq(|s|, i requires 0 <= i < |s| => UrlChar(s[i]))
  }

  /**
   * The string handed to `atob`: padded, then `replace(/-/g, "+")` and
   * `replace(/_/g, "/")`.
   */
  function Normalised(s: string): (r: string)
    ensures '_' !in r
  {
    ReplaceAll(ReplaceAll(s + Pad(Padding(|s|)), '-', "+"), '_', "/")
  }

  /**
   * The normalised key is the key in the standard alphabet followed by its
   * padding: a multiple of four characters with no URL-safe character left.
   */
  lemma NormalisedForm(s: string)
    ensures Normalised(s) == StdChars(s) + Pad(Padding(|s|))
    ensures |Normalised(s)| % 4 == 0 && |Normalised(s)| - |s| < 4
    ensures '-' !in Normalised(s) && '_' !in Normalised(s)
  {
    NormalisedChars(s);
    var r := Normalised(s);
    var std := StdChars(s);
    forall i | 0 <= i < |r|
      ensures r[i] != '-' && r[i] != '_'
    {
      if i < |std| {
        assert r[i] == StdChar(s[i]);
      } else {
        assert r[i] == Pad(Padding(|s|))[i - |std|];
      }
    }
  }

  /** The normalisation maps each character to its standard one, then appends the padding. */
  lemma NormalisedChars(s: string)
    ensures Normalised(s) == StdChars(s) + Pad(Padding(|s|))
  {
    var padded := s + Pad(Padding(|s|));
    var plus := ReplaceAll(padded, '-', "+");
    ReplaceOneChar(padded, '-', '+');
    ReplaceOneChar(plus, '_', '/');
    var r := Normalised(s);
    var want := StdChars(s) + Pad(Padding(|s|));
    assert |r| == |want|;
    forall i | 0 <= i < |r|
      ensures r[i] == want[i]
    {
      if i < |s| {
        assert padded[i] == s[i];
      } else {
        assert padded[i] == '=' && want[i] == '=';
      }
    }
  }

  /** Replacing a character by one character maps the string position by position. */
  lemma {:induction false} ReplaceOneChar(s: string, c: char, d: char)
    ensures |ReplaceAll(s, c, [d])| == |s|
    ensures forall i :: 0 <= i < |s| ==>
      ReplaceAll(s, c, [d])[i] == if s[i] == c then d else s[i]
  {
    if s != [] {
      ReplaceOneChar(s[1..], c, d);
    }
  }

  /** The trailing `=` removed. */
  function StripPadding(t: string): (r: string)
    ensures |r| <= |t| && r == t[..|r|]
    ensures r == [] || r[|r| - 1] != '='
  {
    if t != [] && t[|t| - 1] == '=' then StripPadding(t[..|t| - 1]) else t
  }

  /** Section 5 of RFC 4648: the URL-safe form of standard base64 text, without padding. */
  function ToUrl(t: string): string {
    UrlChars(StripPadding(t))
  }

  /** Padding after text that holds no `=` is stripped exactly. */
  lemma {:induction false} StripPad(body: string, n: nat)
    requires '=' !in body
    ensures StripPadding(body + Pad(n)) == body
  {
    if n == 0 {
      assert body + Pad(0) == body;
      if body != [] {
        assert body[|body| - 1] in body;
      }
    } else {
      assert (body + Pad(n))[..|body| + n - 1] == body + Pad(n - 1);
      StripPad(body, n - 1);
    }
  }

  /** A URL-safe key without padding survives the normalisation: encoding it again gives it back. */
  lemma UrlRoundTrip(u: string)
    requires '=' !in u && '+' !in u && '/' !in u
    ensures ToUrl(Normalised(u)) == u
  {
    NormalisedForm(u);
    var std := StdChars(u);
    forall i | 0 <= i < |std|
      ensures std[i] != '='
    {
      assert u[i] in u;
    }
    StripPad(std, Padding(|u|));
    assert UrlChars(std) == u;
  }

  /**
   * Standard base64 text `body + "=="` (at most three `=`, length a multiple
   * of four) is what the normalisation rebuilds from its URL-safe form.
   */
  lemma StdRoundTrip(body: string, n: nat)
    requires '=' !in body && '-' !in body && '_' !in body
    requires n < 4 && (|body| + n) % 4 == 0
    ensures Normalised(ToUrl(body + Pad(n))) == body + Pad(n)
  {
    StripPad(body, n);
    var url := UrlChars(body);
    assert ToUrl(body + Pad(n)) == url;
    NormalisedForm(url);
    assert |url| == |body|;
    PaddingUnique(|url|, n);
    StdOfUrl(body);
  }

  /** Mapping standard characters to URL-safe ones and back is the identity. */
  lemma StdOfUrl(body: string)
    requires '-' !in body && '_' !in body
    ensures StdChars(UrlChars(body)) == body
  {
    var url := UrlChars(body);
    forall i | 0 <= i < |body|
      ensures StdChars(url)[i] == body[i]
    {
      assert body[i] in body;
    }
  }

  /** `outputArray[i] = rawData.charCodeAt(i)`: a `Uint8Array` keeps the code unit modulo 256. */
  function Bytes(raw: string): (b: seq<byte>)
    ensures |b| == |raw|
  {
    seq(|raw|, i requires 0 <= i < |raw| => (raw[i] as int % 256) as byte)
  }

  /** The binary string whose characters are the given bytes, as `atob` returns it. */
  function Latin1(b: seq<byte>): (raw: string)
    ensures |raw| == |b|
  {
    seq(|b|, i requires 0 <= i < |b| => b[i] as int as char)
  }

  predicate IsBinary(raw: string) {
    forall i :: 0 <= i < |raw| ==> raw[i] as int < 256
  }

  /** On a binary string the copy loses nothing, and it inverts `Latin1`. */
  lemma BytesOfBinary(raw: string, b: seq<byte>)
    ensures IsBinary(raw) ==> Latin1(Bytes(raw)) == raw
    ensures Bytes(Latin1(b)) == b
  {
    if IsBinary(raw) {
      assert forall i :: 0 <= i < |raw| ==> Latin1(Bytes(raw))[i] == raw[i];
    }
    assert forall i :: 0 <= i < |b| ==> Bytes(Latin1(b))[i] == b[i];
  }

  /** The copy loop of `urlBase64ToUint8Array`. */
  method CopyBytes(raw: string) returns (out: array<byte>)
    ensures fresh(out) && out[..] == Bytes(raw)
  {
    out := new byte[|raw|];
    for i := 0 to |raw|
      invariant out[..i] == Bytes(raw)[..i]
    {
      out[i] := (raw[i] as int % 256) as byte;
    }
  }

  /** `urlBase64ToUint8Array(s)`, with the browser's decoder `atob`. */
  method UrlBase64ToBytes(s: string, atob: string -> Option<string>) returns (out: Option<array<byte>>)
    ensures out.None? <==> atob(Normalised(s)).None?
    ensures out.Some? ==> fresh(out.value) && out.value[..] == Bytes(atob(Normalised(s)).value)
  {
    var raw := atob(Normalised(s));
    if raw.None? {
      return None;
    }
    var bytes := CopyBytes(raw.value);
    out := Some(bytes);
  }
}
