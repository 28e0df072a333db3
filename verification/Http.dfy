/** The parts of HTTP state that the handlers work on: cookies, the browser's jar and the response. */
module Http {
  datatype Cookie = Cookie(name: string, value: string)

  // A negative maxAge expires the cookie (section 5.2.2 of RFC 6265); 0 leaves the attribute out.
  datatype SetCookie = SetCookie(name: string, value: string, maxAge: int)

  type Jar = map<string, string>

  predicate HasPrefix(s: string, prefix: string) { prefix <= s }

  // Section 5.3 of RFC 6265, for cookies that share domain and path.
  function Keep(jar: Jar, c: SetCookie): Jar {
    if c.maxAge < 0 then jar - {c.name} else jar[c.name := c.value]
  }

  function KeepAll(jar: Jar, cs: seq<SetCookie>): Jar
    decreases |cs|
  {
    if cs == [] then jar else KeepAll(Keep(jar, cs[0]), cs[1..])
  }

  // The request carries the whole jar, in some order.
  ghost predicate Sends(jar: Jar, cs: seq<Cookie>) {
    && (forall i :: 0 <= i < |cs| ==> cs[i].name in jar && jar[cs[i].name] == cs[i].value)
    && (forall n :: n in jar ==> exists i :: 0 <= i < |cs| && cs[i].name == n)
    && (forall i, j :: 0 <= i < j < |cs| ==> cs[i].name != cs[j].name)
  }

  lemma {:induction false} KeepAllConcat(jar: Jar, a: seq<SetCookie>, b: seq<SetCookie>)
    ensures KeepAll(jar, a + b) == KeepAll(KeepAll(jar, a), b)
    decreases |a|
  {
    if a == [] {
      assert a + b == b;
    } else {
      assert (a + b)[0] == a[0] && (a + b)[1..] == a[1..] + b;
      KeepAllConcat(Keep(jar, a[0]), a[1..], b);
    }
  }

  // Expiring a list of names removes exactly those names.
  lemma {:induction false} KeepAllExpired(jar: Jar, cs: seq<SetCookie>)
    requires forall i :: 0 <= i < |cs| ==> cs[i].maxAge < 0
    ensures KeepAll(jar, cs) == jar - (set i | 0 <= i < |cs| :: cs[i].name)
    decreases |cs|
  {
    if cs != [] {
      KeepAllExpired(Keep(jar, cs[0]), cs[1..]);
      var names := set i | 0 <= i < |cs| :: cs[i].name;
      var rest := set i | 0 <= i < |cs[1..]| :: cs[1..][i].name;
      assert names == {cs[0].name} + rest by {
        forall n | n in names ensures n in {cs[0].name} + rest {
          var i :| 0 <= i < |cs| && cs[i].name == n;
          if i > 0 { assert cs[1..][i - 1].name == n; }
        }
        forall n | n in rest ensures n in names {
          var i :| 0 <= i < |cs[1..]| && cs[1..][i].name == n;
          assert cs[i + 1].name == n;
        }
      }
      assert (jar - {cs[0].name}) - rest == jar - names;
    }
  }

  // What a handler answers with.
  datatype Answer = Pending | Redirect(location: string) | Failure(status: int, text: string)

  class ResponseWriter {
    var cookies: seq<SetCookie>
    var answer: Answer

    constructor ()
      ensures cookies == [] && answer == Pending
    {
      cookies, answer := [], Pending;
    }

    method AddCookie(c: SetCookie)
      modifies `cookies
      ensures cookies == old(cookies) + [c]
    {
      cookies := cookies + [c];
    }
  }
}
