/**
 Requests: how a URL is taken apart, and how values are escaped into a form body.
 */
module Request {
  import opened Basics

  // ---------- searching ----------

  /** The first place where `c` stands in `s`, or the length of `s`. */
  function Index(s: string, c: char): (i: nat)
    ensures i <= |s| && (i < |s| ==> s[i] == c)
    ensures forall j :: 0 <= j < i ==> s[j] != c
  {
    if s == "" then 0 else if s[0] == c then 0 else 1 + Index(s[1..], c)
  }

  predicate SchemeEndsAt(s: string, i: nat) {
    i + 3 <= |s| && s[i] == ':' && s[i + 1] == '/' && s[i + 2] == '/'
  }

  /** The first place where "://" stands in `s`, or the length of `s`. */
  function SchemeEnd(s: string): (i: nat)
    ensures i <= |s| && (i < |s| ==> SchemeEndsAt(s, i))
    ensures forall j :: 0 <= j < i ==> !SchemeEndsAt(s, j)
  {
    if s == "" then 0
    else if SchemeEndsAt(s, 0) then 0
    else
      var i := SchemeEnd(s[1..]);
      assert forall j :: 1 <= j < |s| ==> (SchemeEndsAt(s, j) <==> SchemeEndsAt(s[1..], j - 1));
      1 + i
  }

  ghost predicate HasScheme(s: string) {
    exists i: nat :: SchemeEndsAt(s, i)
  }

  // ---------- the parts of a URL ----------

  /** What stands in a URL; `path` includes its first slash. */
  datatype Parts = Parts(scheme: Option<string>, host: string, port: Option<string>, path: Option<string>)

  datatype Url = Url(protocol: string, host: string, port: string, path: string)

  function Tail(p: Parts): string {
    (if p.port.Some? then ":" + p.port.value else "") + p.path.GetOr("")
  }

  function Text(p: Parts): string {
    (if p.scheme.Some? then p.scheme.value + "://" else "") + (p.host + Tail(p))
  }

  ghost predicate Lexical(p: Parts) {
    && '/' !in p.host && ':' !in p.host
    && (p.port.Some? ==> '/' !in p.port.value)
    && (p.path.Some? ==> |p.path.value| > 0 && p.path.value[0] == '/')
  }

  /** The parts that can be told apart in the text. */
  ghost predicate Readable(p: Parts) {
    && Lexical(p)
    && (p.scheme.Some? ==> !HasScheme(p.scheme.value))
    && (p.scheme.None? ==> !HasScheme(Text(p)))
  }

  /** The defaults for what is missing. */
  function Filled(p: Parts): Url {
    var protocol := p.scheme.GetOr("http");
    Url(protocol, p.host, p.port.GetOr(if protocol == "https" then "443" else "80"), p.path.GetOr("/"))
  }

  /** How a text is read: the scheme first, then the path, then the port. */
  function Reading(text: string): Parts {
    var i := SchemeEnd(text);
    if i < |text| then Cut(Some(text[..i]), text[i + 3..]) else Cut(None, text)
  }

  function Cut(scheme: Option<string>, rest: string): Parts {
    var slash := Index(rest, '/');
    var authority := rest[..slash];
    var colon := Index(authority, ':');
    Parts(scheme, authority[..colon],
          if colon < |authority| then Some(authority[colon + 1..]) else None,
          if slash < |rest| then Some(rest[slash..]) else None)
  }

  method ParseUrl(fullUrl: string) returns (result: Url)
    ensures result == Filled(Reading(fullUrl))
  {
    var remaining := fullUrl;
    var protocol, host, port, path;
    var pos := SchemeEnd(remaining);
    if pos < |remaining| {
      protocol := remaining[..pos];
      remaining := remaining[pos + 3..];
    } else {
      protocol := "http";
    }
    ghost var scheme := Reading(fullUrl).scheme;
    assert Reading(fullUrl) == Cut(scheme, remaining) && protocol == scheme.GetOr("http");
    ghost var authority := remaining[..Index(remaining, '/')];
    pos := Index(remaining, '/');
    if pos < |remaining| {
      path := remaining[pos..];
      remaining := remaining[..pos];
    } else {
      path := "/";
    }
    assert remaining == authority && path == Reading(fullUrl).path.GetOr("/");
    pos := Index(remaining, ':');
    if pos < |remaining| {
      host := remaining[..pos];
      port := remaining[pos + 1..];
    } else {
      host := remaining;
      port := if protocol == "https" then "443" else "80";
    }
    result := Url(protocol, host, port, path);
  }

  lemma CutKeepsText(scheme: Option<string>, rest: string)
    ensures var p := Cut(scheme, rest); Lexical(p) && p.scheme == scheme && p.host + Tail(p) == rest
  {
    var p := Cut(scheme, rest);
    var authority := rest[..Index(rest, '/')];
    assert forall j :: 0 <= j < |authority| ==> authority[j] == rest[j];
    assert Authority(p) == authority;
    assert rest == authority + p.path.GetOr("");
    assert p.host + Tail(p) == Authority(p) + p.path.GetOr("");
  }

  /** Nothing of the text is lost or invented. */
  lemma ReadingKeepsText(text: string)
    ensures Readable(Reading(text)) && Text(Reading(text)) == text
  {
    var i := SchemeEnd(text);
    if i < |text| {
      CutKeepsText(Some(text[..i]), text[i + 3..]);
      assert forall j: nat :: SchemeEndsAt(text[..i], j) ==> SchemeEndsAt(text, j);
      assert text == text[..i] + "://" + text[i + 3..];
    } else {
      CutKeepsText(None, text);
      assert Text(Reading(text)) == text;
    }
  }

  // ---------- the parts are determined by the text ----------

  lemma FirstIsUnique(s: string, c: char, k: nat)
    requires k <= |s| && (k < |s| ==> s[k] == c)
    requires forall j :: 0 <= j < k ==> s[j] != c
    ensures Index(s, c) == k
  {
  }

  lemma IndexAfter(s: string, c: char, t: string)
    requires c !in s
    ensures Index(s + t, c) == |s| + Index(t, c)
  {
    var u, k := s + t, |s| + Index(t, c);
    assert forall j :: 0 <= j < |s| ==> u[j] == s[j];
    assert forall j :: |s| <= j < |u| ==> u[j] == t[j - |s|];
    assert forall j :: 0 <= j < k ==> u[j] != c;
    assert k < |u| ==> u[k] == c;
    FirstIsUnique(u, c, k);
  }

  /** "://" does not overlap itself. */
  lemma SchemeFound(protocol: string, rest: string)
    requires !HasScheme(protocol)
    ensures SchemeEnd(protocol + "://" + rest) == |protocol|
  {
    var s := protocol + "://" + rest;
    assert SchemeEndsAt(s, |protocol|);
    forall i | 0 <= i < |protocol| ensures !SchemeEndsAt(s, i) {
      assert SchemeEndsAt(protocol, i) <==> SchemeEndsAt(s, i) && i + 3 <= |protocol|;
      assert s[|protocol|] == ':' && s[|protocol| + 1] == '/';
    }
  }

  lemma SameRest(p: Parts, q: Parts)
    requires Lexical(p) && Lexical(q) && p.scheme == q.scheme && p.host + Tail(p) == q.host + Tail(q)
    ensures p == q
  {
    SlashOf(p);
    SlashOf(q);
    var s := p.host + Tail(p);
    assert p.path == (if Index(s, '/') < |s| then Some(s[Index(s, '/')..]) else None);
    ColonOf(p);
    ColonOf(q);
  }

  function Authority(p: Parts): string {
    p.host + (if p.port.Some? then ":" + p.port.value else "")
  }

  lemma SlashOf(p: Parts)
    requires Lexical(p)
    ensures var s := p.host + Tail(p);
            Index(s, '/') == |Authority(p)| && s[..|Authority(p)|] == Authority(p) &&
            p.path == (if |Authority(p)| < |s| then Some(s[|Authority(p)|..]) else None)
  {
    var s := p.host + Tail(p);
    assert s == Authority(p) + p.path.GetOr("");
    IndexAfter(Authority(p), '/', p.path.GetOr(""));
  }

  lemma ColonOf(p: Parts)
    requires Lexical(p)
    ensures var a := Authority(p);
            Index(a, ':') == |p.host| && p.host == a[..|p.host|] &&
            p.port == (if |p.host| < |a| then Some(a[|p.host| + 1..]) else None)
  {
    var a := Authority(p);
    IndexAfter(p.host, ':', if p.port.Some? then ":" + p.port.value else "");
    assert p.port.Some? ==> a[|p.host| + 1..] == p.port.value;
  }

  /** And readable parts come back from their text: scheme, host, port and path. */
  lemma ReadingOfText(p: Parts)
    requires Readable(p)
    ensures Reading(Text(p)) == p
  {
    var q := Reading(Text(p));
    ReadingKeepsText(Text(p));
    SchemeOf(p);
    SchemeOf(q);
    SameRest(p, q);
  }

  lemma SchemeOf(p: Parts)
    requires Readable(p)
    ensures var s, i := Text(p), SchemeEnd(Text(p));
            if i < |s| then p.scheme == Some(s[..i]) && p.host + Tail(p) == s[i + 3..]
            else p.scheme == None && p.host + Tail(p) == s
  {
    var s := Text(p);
    if p.scheme.Some? {
      assert s == p.scheme.value + "://" + (p.host + Tail(p));
      SchemeFound(p.scheme.value, p.host + Tail(p));
      assert s[..|p.scheme.value|] == p.scheme.value;
      assert s[|p.scheme.value| + 3..] == p.host + Tail(p);
    } else {
      assert s == p.host + Tail(p);
    }
  }

  /** Without a scheme the URL is understood exactly when "://" stands nowhere in it, not even in its path. */
  lemma SchemelessExactly(p: Parts)
    requires Lexical(p) && p.scheme.None?
    ensures Filled(Reading(Text(p))) == Filled(p) <==> !HasScheme(Text(p))
  {
    var read := Reading(Text(p));
    ReadingKeepsText(Text(p));
    assert Text(p) == p.host + Tail(p);
    if HasScheme(Text(p)) {
      SchemeOf(read);
      assert Text(p) == p.host + Tail(p);
      PathIsLong(p, p.host + Tail(p), SchemeEnd(Text(p)));
      PathIsShort(read);
    } else {
      ReadingOfText(p);
    }
  }

  lemma PathIsLong(p: Parts, s: string, i: nat)
    requires Lexical(p) && s == p.host + Tail(p) && SchemeEndsAt(s, i)
    ensures |p.path.GetOr("/")| >= |s| - i - 1 >= 2
  {
    SlashOf(p);
    FirstIsEarly(s, '/', i + 1);
    assert p.path == Some(s[|Authority(p)|..]);
  }

  lemma FirstIsEarly(s: string, c: char, i: nat)
    requires i < |s| && s[i] == c
    ensures Index(s, c) <= i
  {
  }

  lemma PathIsShort(p: Parts)
    requires Lexical(p)
    ensures |p.path.GetOr("/")| == 1 || |p.path.GetOr("/")| <= |p.host + Tail(p)|
  {
    SlashOf(p);
  }

  // ---------- percent encoding ----------

  type Octet = c: char | c as int < 256

  function Unreserved(c: char): bool {
    'A' <= c <= 'Z' || 'a' <= c <= 'z' || '0' <= c <= '9' || c == '-' || c == '_' || c == '.' || c == '~'
  }

  function HexDigit(v: int): char
    requires 0 <= v < 16
  {
    if v < 10 then '0' + v as char else 'A' + (v - 10) as char
  }

  function Escaped(c: Octet): string {
    if Unreserved(c) then [c] else ['%', HexDigit(c as int / 16), HexDigit(c as int % 16)]
  }

  function Encoded(value: seq<Octet>): string {
    if value == [] then "" else Encoded(value[..|value| - 1]) + Escaped(value[|value| - 1])
  }

  method UrlEncode(value: seq<Octet>) returns (escaped: string)
    ensures escaped == Encoded(value)
  {
    escaped := "";
    for i := 0 to |value|
      invariant escaped == Encoded(value[..i])
    {
      var c := value[i];
      if Unreserved(c) {
        escaped := escaped + [c];
      } else {
        escaped := escaped + ['%', HexDigit(c as int / 16), HexDigit(c as int % 16)];
      }
      assert value[..i + 1][..i] == value[..i];
    }
    assert value[..|value|] == value;
  }

  /** A hexadecimal digit of either case. */
  function HexValue(c: char): Option<int> {
    if '0' <= c <= '9' then Some(c as int - '0' as int)
    else if 'A' <= c <= 'F' then Some(c as int - 'A' as int + 10)
    else if 'a' <= c <= 'f' then Some(c as int - 'a' as int + 10)
    else None
  }

  /** Section 2.1 of RFC 3986: a triplet stands for its octet, anything else for itself. */
  function PercentDecoded(s: string): Option<string> {
    if s == "" then Some("")
    else if s[0] != '%' then
      var rest := PercentDecoded(s[1..]);
      if rest.None? then None else Some([s[0]] + rest.value)
    else if |s| < 3 || HexValue(s[1]).None? || HexValue(s[2]).None? then None
    else
      var rest := PercentDecoded(s[3..]);
      if rest.None? then None
      else Some([(HexValue(s[1]).value * 16 + HexValue(s[2]).value) as char] + rest.value)
  }

  lemma EscapedDecodes(c: Octet, rest: string)
    ensures PercentDecoded(Escaped(c) + rest) ==
      if PercentDecoded(rest).None? then None else Some([c] + PercentDecoded(rest).value)
  {
    var s := Escaped(c) + rest;
    if Unreserved(c) {
      assert s[1..] == rest;
    } else {
      assert s[3..] == rest;
      assert HexValue(HexDigit(c as int / 16)) == Some(c as int / 16);
      assert HexValue(HexDigit(c as int % 16)) == Some(c as int % 16);
    }
  }

  lemma Associate(a: string, b: string, c: string)
    ensures a + b + c == a + (b + c)
  {
  }

  lemma {:induction false} DecodedAppend(value: seq<Octet>, rest: string)
    requires PercentDecoded(rest).Some?
    ensures PercentDecoded(Encoded(value) + rest) == Some(value + PercentDecoded(rest).value)
  {
    if value == [] {
      assert Encoded(value) + rest == rest;
      assert value + PercentDecoded(rest).value == PercentDecoded(rest).value;
    } else {
      var before, c := value[..|value| - 1], value[|value| - 1];
      var tail := Escaped(c) + rest;
      EscapedDecodes(c, rest);
      Associate(Encoded(before), Escaped(c), rest);
      DecodedAppend(before, tail);
      assert value == before + [c];
      Associate(before, [c], PercentDecoded(rest).value);
    }
  }

  lemma DecodedEncoded(value: seq<Octet>)
    ensures PercentDecoded(Encoded(value)) == Some(value)
  {
    DecodedAppend(value, "");
    assert Encoded(value) + "" == Encoded(value);
    assert value + PercentDecoded("").value == value;
  }

  lemma {:induction false} EncodedIsPlain(value: seq<Octet>, i: nat)
    requires i < |Encoded(value)|
    ensures Unreserved(Encoded(value)[i]) || Encoded(value)[i] == '%'
  {
    var n := |value| - 1;
    if i < |Encoded(value[..n])| {
      EncodedIsPlain(value[..n], i);
    }
  }

  // ---------- form bodies ----------

  datatype Field = Field(key: seq<Octet>, value: seq<Octet>)

  function Entry(f: Field): string {
    Encoded(f.key) + "=" + Encoded(f.value)
  }

  function Form(fields: seq<Field>): string {
    if fields == [] then ""
    else
      var n := |fields| - 1;
      Form(fields[..n]) + (if n == 0 then "" else "&") + Entry(fields[n])
  }

  method FormBody(fields: seq<Field>) returns (body: string)
    ensures body == Form(fields)
  {
    body := "";
    for i := 0 to |fields|
      invariant body == Form(fields[..i]) && (body == "" <==> i == 0)
    {
      if body != "" {
        body := body + "&";
      }
      var key := UrlEncode(fields[i].key);
      var value := UrlEncode(fields[i].value);
      body := body + (key + "=" + value);
      assert fields[..i + 1][..i] == fields[..i];
    }
    assert fields[..|fields|] == fields;
  }

  /** Reading a form: the last ampersand ends the fields before the last one. */
  function LastIndex(s: string, c: char): (i: int)
    ensures -1 <= i < |s| && (i >= 0 ==> s[i] == c)
    ensures forall j :: i < j < |s| ==> s[j] != c
  {
    if s == "" then -1
    else if s[|s| - 1] == c then |s| - 1
    else LastIndex(s[..|s| - 1], c)
  }

  function ReadField(s: string): Option<Field> {
    var i := Index(s, '=');
    if i == |s| then None else Pair(PercentDecoded(s[..i]), PercentDecoded(s[i + 1..]))
  }

  function Pair(key: Option<string>, value: Option<string>): Option<Field> {
    if key.None? || value.None? || !Octets(key.value) || !Octets(value.value) then None
    else Some(Field(key.value, value.value))
  }

  predicate Octets(s: string) {
    forall i :: 0 <= i < |s| ==> s[i] as int < 256
  }

  function ReadForm(s: string): Option<seq<Field>> {
    if s == "" then Some([])
    else
      var i := LastIndex(s, '&');
      var before := if i < 0 then Some([]) else ReadForm(s[..i]);
      var last := ReadField(s[i + 1..]);
      if before.None? || last.None? then None else Some(before.value + [last.value])
  }

  lemma EncodedWithout(value: seq<Octet>, c: char)
    requires !Unreserved(c) && c != '%'
    ensures c !in Encoded(value)
  {
    forall i | 0 <= i < |Encoded(value)| ensures Encoded(value)[i] != c {
      EncodedIsPlain(value, i);
    }
  }

  lemma FieldReads(key: string, value: string, f: Field)
    requires '=' !in key && PercentDecoded(key) == Some(f.key) && PercentDecoded(value) == Some(f.value)
    ensures ReadField(key + "=" + value) == Some(f)
  {
    var s := key + "=" + value;
    FirstIsUnique(s, '=', |key|);
    assert s[..|key|] == key && s[|key| + 1..] == value;
  }

  lemma EntryReads(f: Field)
    ensures ReadField(Entry(f)) == Some(f) && '&' !in Entry(f)
  {
    EncodedWithout(f.key, '=');
    EncodedWithout(f.key, '&');
    EncodedWithout(f.value, '&');
    DecodedEncoded(f.key);
    DecodedEncoded(f.value);
    FieldReads(Encoded(f.key), Encoded(f.value), f);
  }

  lemma LastAmpersand(before: string, entry: string)
    requires '&' !in entry
    ensures LastIndex(before + "&" + entry, '&') == |before|
    ensures LastIndex(entry, '&') == -1
  {
    LastIsUnique(entry, '&', -1);
    LastAfter(before, '&', entry);
  }

  lemma {:induction false} LastAfter(before: string, c: char, entry: string)
    requires c !in entry
    ensures LastIndex(before + [c] + entry, c) == |before|
  {
    var s := before + [c] + entry;
    if entry != [] {
      var n := |entry| - 1;
      assert s[..|s| - 1] == before + [c] + entry[..n];
      assert s[|s| - 1] == entry[n];
      LastAfter(before, c, entry[..n]);
    }
  }

  lemma LastIsUnique(s: string, c: char, k: int)
    requires -1 <= k < |s| && (k >= 0 ==> s[k] == c)
    requires forall j :: k < j < |s| ==> s[j] != c
    ensures LastIndex(s, c) == k
  {
  }

  lemma OneMoreField(before: string, fields: seq<Field>, f: Field)
    requires ReadForm(before) == Some(fields)
    ensures ReadForm(before + "&" + Entry(f)) == Some(fields + [f])
  {
    var s := before + "&" + Entry(f);
    EntryReads(f);
    LastAmpersand(before, Entry(f));
    assert s[..|before|] == before && s[|before| + 1..] == Entry(f);
  }

  lemma OneField(f: Field)
    ensures Entry(f) != "" && ReadForm(Entry(f)) == Some([f])
  {
    EntryReads(f);
    LastAmpersand("", Entry(f));
    assert Entry(f)[0..] == Entry(f);
    assert [] + [f] == [f];
  }

  lemma FormGrows(fields: seq<Field>, f: Field)
    ensures Form(fields + [f]) == if fields == [] then Entry(f) else Form(fields) + "&" + Entry(f)
  {
    assert (fields + [f])[..|fields|] == fields;
    assert "" + "" + Entry(f) == Entry(f);
  }

  /** The fields come back, in order, whatever bytes are in them. */
  lemma {:induction false} FormReads(fields: seq<Field>)
    ensures ReadForm(Form(fields)) == Some(fields)
  {
    if fields != [] {
      var before, f := fields[..|fields| - 1], fields[|fields| - 1];
      assert fields == before + [f];
      FormGrows(before, f);
      FormReads(before);
      if before == [] {
        OneField(f);
      } else {
        OneMoreField(Form(before), before, f);
      }
    }
  }

  // ---------- in plain characters ----------

  /** The defaults: http, the root path, and the port of the protocol. */
  lemma DefaultsExactly(p: Parts)
    ensures Filled(p).host == p.host
    ensures Filled(p).protocol == if p.scheme.Some? then p.scheme.value else "http"
    ensures Filled(p).path == if p.path.Some? then p.path.value else "/"
    ensures p.port.Some? ==> Filled(p).port == p.port.value
    ensures p.port.None? && p.scheme == Some("https") ==> Filled(p).port == "443"
    ensures p.port.None? && p.scheme != Some("https") ==> Filled(p).port == "80"
  {
  }

  /** The characters of section 2.3 of RFC 3986. */
  predicate Plain(c: char) {
    c in "ABCDEFGHIJKLMNOPQRSTUVWXYZ" || c in "abcdefghijklmnopqrstuvwxyz" || c in "0123456789" || c in "-_.~"
  }

  lemma PlainIsUnreserved(c: char)
    ensures Plain(c) <==> Unreserved(c)
  {
  }

  lemma {:induction false} UnreservedStays(value: seq<Octet>)
    requires forall i :: 0 <= i < |value| ==> Unreserved(value[i])
    ensures Encoded(value) == value
  {
    if value != [] {
      var n := |value| - 1;
      UnreservedStays(value[..n]);
      assert Escaped(value[n]) == [value[n]];
      assert value == value[..n] + [value[n]];
    }
  }

  /** Plain values stay as they are. */
  lemma PlainStays(value: seq<Octet>)
    requires forall i :: 0 <= i < |value| ==> Plain(value[i])
    ensures Encoded(value) == value
  {
    forall i | 0 <= i < |value| ensures Unreserved(value[i]) {
      PlainIsUnreserved(value[i]);
    }
    UnreservedStays(value);
  }

  /** Any other octet becomes a percent sign and its two hexadecimal digits, in capitals. */
  lemma OthersAreTriplets(c: Octet)
    requires !Plain(c)
    ensures Encoded([c]) == ['%', "0123456789ABCDEF"[c as int / 16], "0123456789ABCDEF"[c as int % 16]]
  {
  }
}
