/** Request headers: a map from canonical names to their values, as net/http keeps it. */
module Headers {
  type Header = map<string, seq<string>>

  function Upper(c: char): char { if 'a' <= c <= 'z' then (c as int - 32) as char else c }

  function Lower(c: char): char { if 'A' <= c <= 'Z' then (c as int + 32) as char else c }

  // Lower case of any letter, exact wherever the result is ASCII: two letters outside ASCII fold into it.
  function LowerRune(c: char): char {
    if c as int == 0x130 then 'i' else if c as int == 0x212A then 'k' else Lower(c)
  }

  // The token characters of section 3.2.6 of RFC 7230.
  predicate TokenChar(c: char) {
    || 'a' <= c <= 'z' || 'A' <= c <= 'Z' || '0' <= c <= '9'
    || c == '!' || c == '#' || c == '$' || c == '%' || c == '&' || c == '\'' || c == '*' || c == '+'
    || c == '-' || c == '.' || c == '^' || c == '_' || c == '`' || c == '|' || c == '~'
  }

  predicate Token(s: string) { forall i :: 0 <= i < |s| ==> TokenChar(s[i]) }

  function CanonicalChar(name: string, i: nat): char
    requires i < |name|
  {
    if i == 0 || name[i - 1] == '-' then Upper(name[i]) else Lower(name[i])
  }

  // Upper case at the start and after each hyphen, lower case elsewhere; not for names that are no tokens.
  function Canonical(name: string): (r: string)
    ensures |r| == |name|
  {
    if !Token(name) then name
    else seq(|name|, i requires 0 <= i < |name| => CanonicalChar(name, i))
  }

  function Get(h: Header, name: string): string {
    if Canonical(name) in h && h[Canonical(name)] != [] then h[Canonical(name)][0] else ""
  }

  function Del(h: Header, name: string): Header { h - {Canonical(name)} }

  function Set(h: Header, name: string, value: string): Header { h[Canonical(name) := [value]] }

  // A header that is absent or carries exactly this value.
  predicate Is(h: Header, name: string, value: string) { Canonical(name) in h && h[Canonical(name)] == [value] }

  predicate Absent(h: Header, name: string) { Canonical(name) !in h }

  // The names the gateway manages itself.
  const USER_PREFIX := "X-User-"
  const USER_ID := "X-User-Id"
  const AUTHORIZATION := "Authorization"
  const COOKIE := "Cookie"
  const FETCH_MODE := "Sec-Fetch-Mode"
  const FORWARDED_FOR := "X-Forwarded-For"
  const FORWARDED_HOST := "X-Forwarded-Host"
  const FORWARDED_PROTO := "X-Forwarded-Proto"
  const DEFAULT_ASSERTION := "X-Hog-Identity"

  predicate UserHeader(name: string) { USER_PREFIX <= name }

  // No spelling of a name that does not start with x is an X-User-* header.
  lemma NotUserHeader(name: string)
    requires name != "" && name[0] != 'x' && name[0] != 'X'
    ensures !UserHeader(Canonical(name))
  {
    assert Canonical(name)[0] == name[0] || Canonical(name)[0] == Upper(name[0]);
    assert USER_PREFIX[0] == 'X';
  }

  // The header map without every X-User-* name.
  function Stripped(h: Header): Header { map n | n in h && !UserHeader(n) :: h[n] }

  lemma TokenCharIs(c: char)
    ensures TokenChar(c) <==> 'a' <= c <= 'z' || 'A' <= c <= 'Z' || '0' <= c <= '9' || c in "!#$%&'*+-.^_`|~"
  {
  }

  // Two spellings of a name that differ in case only are one header.
  lemma CanonicalFoldsCase(a: string, b: string)
    requires |a| == |b| && Token(a) && forall i :: 0 <= i < |a| ==> Lower(a[i]) == Lower(b[i])
    ensures Token(b) && Canonical(a) == Canonical(b)
  {
    forall i | 0 <= i < |b| ensures TokenChar(b[i]) && Upper(a[i]) == Upper(b[i]) && (a[i] == '-' <==> b[i] == '-') {
      assert TokenChar(a[i]) && Lower(a[i]) == Lower(b[i]);
    }
  }

  lemma CanonicalCharAt(name: string, i: nat)
    requires Token(name) && i < |name|
    ensures Canonical(name)[i] == CanonicalChar(name, i)
  {
    hide CanonicalChar, TokenChar;
  }

  lemma CanonicalAt(name: string, i: nat)
    requires Token(name) && i < |name|
    ensures Canonical(name)[i] == if i == 0 || name[i - 1] == '-' then Upper(name[i]) else Lower(name[i])
  {
    CanonicalCharAt(name, i);
  }

  // The canonical form of a token differs from it in case only, and starts each part with a capital.
  lemma CanonicalIsASpelling(name: string, i: nat)
    requires Token(name) && i < |name|
    ensures Lower(Canonical(name)[i]) == Lower(name[i])
    ensures i == 0 || name[i - 1] == '-' ==> !('a' <= Canonical(name)[i] <= 'z')
    ensures i > 0 && name[i - 1] != '-' ==> !('A' <= Canonical(name)[i] <= 'Z')
  {
    hide Canonical, Token;
    CanonicalAt(name, i);
  }

  lemma UserIdIsCanonical()
    ensures Canonical("X-User-Id") == USER_ID
  {
  }

  lemma AssertionIsCanonical()
    ensures Canonical("X-Hog-Identity") == DEFAULT_ASSERTION
  {
  }

  lemma AuthorizationIsCanonical()
    ensures Canonical("Authorization") == AUTHORIZATION
  {
  }

  lemma CookieIsCanonical()
    ensures Canonical("Cookie") == COOKIE
  {
  }

  lemma FetchModeIsCanonical()
    ensures Canonical("Sec-Fetch-Mode") == FETCH_MODE
  {
  }

  lemma ForwardedForIsCanonical()
    ensures Canonical("X-Forwarded-For") == FORWARDED_FOR
  {
  }

  lemma ForwardedHostIsCanonical()
    ensures Canonical("X-Forwarded-Host") == FORWARDED_HOST
  {
  }

  lemma ForwardedProtoIsCanonical()
    ensures Canonical("X-Forwarded-Proto") == FORWARDED_PROTO
  {
  }

  // Every name the gateway manages is written in canonical form.
  lemma ManagedNamesAreCanonical()
    ensures Canonical("X-User-Id") == USER_ID && Canonical("X-Hog-Identity") == DEFAULT_ASSERTION
    ensures Canonical("Authorization") == AUTHORIZATION && Canonical("Cookie") == COOKIE
    ensures Canonical("Sec-Fetch-Mode") == FETCH_MODE && Canonical("X-Forwarded-For") == FORWARDED_FOR
    ensures Canonical("X-Forwarded-Host") == FORWARDED_HOST && Canonical("X-Forwarded-Proto") == FORWARDED_PROTO
  {
    hide Canonical;
    UserIdIsCanonical();
    AssertionIsCanonical();
    AuthorizationIsCanonical();
    CookieIsCanonical();
    FetchModeIsCanonical();
    ForwardedForIsCanonical();
    ForwardedHostIsCanonical();
    ForwardedProtoIsCanonical();
  }
}
