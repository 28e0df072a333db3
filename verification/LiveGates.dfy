/** The identity gates on a live request: headers deleted and set in place, the context replaced. */
module LiveGates {
  import opened Wrappers
  import opened Headers
  import opened Projection
  import opened Pipeline

  class Inbound {
    var header: Header
    var principal: Option<Principal>
    var bearerError: bool
    var assertionHeader: string
    const line: Request   // the parts no gate changes: verb, path, URI, host, peer

    constructor (r: Request)
      ensures Model() == r
    {
      header, principal, bearerError, assertionHeader := r.header, r.principal, r.bearerError, r.assertionHeader;
      line := r;
    }

    function Model(): Request
      reads this
    {
      line.(header := header, principal := principal, bearerError := bearerError, assertionHeader := assertionHeader)
    }

    method ResolveSession(m: Option<SessionReader>)
      modifies this
      ensures Pass(Model()) == Act(SessionGate(m), old(Model()))
    {
      if m.Some? {
        var s := m.value.read(Values(header, COOKIE), GetAll(header, m.value.fingerprints));
        if s.Some? {
          principal := s;
        }
      }
    }

    method ResolveBearer(identify: string -> Option<Identity>)
      modifies this
      ensures Pass(Model()) == Act(BearerGate(identify), old(Model()))
    {
      if principal.Some? {
        return;
      }
      var token := ParseBearer(Get(header, AUTHORIZATION));
      if token.None? {
        return;
      }
      var id := identify(token.value);
      if id.None? || id.value.subject == "" {
        bearerError := true;
        return;
      }
      principal := Some(Principal(id.value.subject, id.value.passport, id.value.groups, token.value, ""));
    }

    method AcceptAssertion(verify: string -> Option<Identity>, configured: string, requireBearer: bool)
      modifies this
      ensures Pass(Model()) == Act(AssertionGate(verify, configured, requireBearer), old(Model()))
    {
      var name := if configured == "" then DEFAULT_ASSERTION else configured;
      var token := Get(header, name);
      header := Del(header, name);
      if token == "" {
        return;
      }
      var a := verify(token);
      if a.None? {
        return;
      }
      if principal.Some? {
        if principal.value.subject == a.value.subject {
          var p := principal.value;
          principal := Some(Principal(p.subject, a.value.passport, a.value.groups, p.accessToken, p.sessionId));
        }
      } else if !requireBearer {
        principal := Some(Principal(a.value.subject, a.value.passport, a.value.groups, "", ""));
      }
    }

    method MintAssertion(mint: Principal -> Option<string>, configured: string)
      modifies this
      ensures Pass(Model()) == Act(IssueAssertion(mint, configured), old(Model()))
    {
      var name := if configured == "" then DEFAULT_ASSERTION else configured;
      header := Del(header, name);
      assertionHeader := name;
      if principal.Some? {
        var token := mint(principal.value);
        if token.Some? {
          header := Set(header, name, token.value);
        }
      }
    }
  }
}
