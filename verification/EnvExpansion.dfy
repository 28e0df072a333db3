/**
  `${VAR}` and `${VAR:-default}` in configuration text (config/env.go), against
  a two-phase meaning: first the text is cut into tokens, then the tokens are
  rendered once.
 */
module EnvExpansion {
  import opened Wrappers

  datatype Token =
    | Literal(c: char)
    | Reference(name: string, fallback: Option<string>)
    | Unclosed

  datatype EnvError = Unterminated | Unset(name: string)

  type Lookup = string -> Option<string>

  // strings.Index for a non-empty needle.
  function Index(s: string, needle: string): (i: int)
    ensures -1 <= i && i + |needle| <= |s| + (if i < 0 then |needle| + 1 else 0)
    ensures i >= 0 ==> needle <= s[i..] && forall k :: 0 <= k < i ==> !(needle <= s[k..])
    ensures i < 0 ==> forall k :: 0 <= k <= |s| ==> !(needle <= s[k..])
  {
    if needle <= s then 0
    else if s == "" then -1
    else
      var i := Index(s[1..], needle);
      assert forall k :: 0 < k <= |s| ==> s[k..] == s[1..][k - 1..];
      if i < 0 then -1 else i + 1
  }

  function ReferenceTo(expr: string): Token {
    var i := Index(expr, ":-");
    if i < 0 then Reference(expr, None) else Reference(expr[..i], Some(expr[i + 2..]))
  }

  // Where the brace that closes the leading reference stands, or -1.
  function Closing(s: string): (end: int)
    requires "${" <= s
    ensures -1 <= end < |s| && (end < 0 || (end >= 2 && s[end] == '}'))
    ensures forall k :: 0 <= k < (if end < 0 then |s| else end) ==> s[k] != '}'
  {
    var end := Index(s, "}");
    assert s[0] == '$' && s[1] == '{';
    assert end >= 0 ==> s[end..][0] == '}';
    assert forall k :: 0 <= k < (if end < 0 then |s| else end) ==> s[k] != '}' by {
      forall k | 0 <= k < (if end < 0 then |s| else end) ensures s[k] != '}' {
        assert !("}" <= s[k..]) && s[k..][0] == s[k];
      }
    }
    end
  }

  function Tokens(s: string): seq<Token>
    decreases |s|
  {
    if s == "" then []
    else if !("${" <= s) then [Literal(s[0])] + Tokens(s[1..])
    else
      var end := Closing(s);
      if end < 0 then [Unclosed] else [ReferenceTo(s[2..end])] + Tokens(s[end + 1..])
  }

  // A set variable wins over its default, even when it is empty.
  function TokenText(t: Token, lookup: Lookup): Result<string, EnvError> {
    match t
    case Literal(c) => Ok([c])
    case Unclosed => Err(Unterminated)
    case Reference(name, fallback) =>
      if lookup(name).Some? then Ok(lookup(name).value)
      else if fallback.Some? then Ok(fallback.value)
      else Err(Unset(name))
  }

  function Then(a: Result<string, EnvError>, b: Result<string, EnvError>): Result<string, EnvError> {
    if a.Err? then a else if b.Err? then b else Ok(a.value + b.value)
  }

  // The first failing token decides the error.
  function Rendered(ts: seq<Token>, lookup: Lookup): Result<string, EnvError> {
    if ts == [] then Ok("") else Then(TokenText(ts[0], lookup), Rendered(ts[1..], lookup))
  }

  function Expanded(s: string, lookup: Lookup): Result<string, EnvError> { Rendered(Tokens(s), lookup) }

  lemma ThenThen(a: Result<string, EnvError>, b: Result<string, EnvError>, c: Result<string, EnvError>)
    ensures Then(a, Then(b, c)) == Then(Then(a, b), c) && Then(Ok(""), a) == a
  {
    if a.Ok? && b.Ok? && c.Ok? { assert a.value + (b.value + c.value) == (a.value + b.value) + c.value; }
    if a.Ok? { assert "" + a.value == a.value; }
  }

  lemma {:induction false} RenderedConcat(a: seq<Token>, b: seq<Token>, lookup: Lookup)
    ensures Rendered(a + b, lookup) == Then(Rendered(a, lookup), Rendered(b, lookup))
  {
    if a == [] {
      assert a + b == b;
      ThenThen(Rendered(b, lookup), Ok(""), Ok(""));
    } else {
      assert (a + b)[0] == a[0] && (a + b)[1..] == a[1..] + b;
      RenderedConcat(a[1..], b, lookup);
      ThenThen(TokenText(a[0], lookup), Rendered(a[1..], lookup), Rendered(b, lookup));
    }
  }

  // Text before the next reference is copied.
  lemma {:induction false} LiteralRun(s: string, i: nat, lookup: Lookup)
    requires i <= |s| && forall k :: 0 <= k < i ==> !("${" <= s[k..])
    ensures Expanded(s, lookup) == Then(Ok(s[..i]), Expanded(s[i..], lookup))
  {
    if i == 0 {
      assert s[0..] == s && s[..0] == "";
      ThenThen(Expanded(s, lookup), Ok(""), Ok(""));
    } else {
      assert s[0..] == s;
      forall k | 0 <= k < i - 1 ensures !("${" <= s[1..][k..]) { assert s[1..][k..] == s[k + 1..]; }
      LiteralRun(s[1..], i - 1, lookup);
      assert s[1..][i - 1..] == s[i..] && [s[0]] + s[1..][..i - 1] == s[..i];
      assert Tokens(s) == [Literal(s[0])] + Tokens(s[1..]);
      RenderedConcat([Literal(s[0])], Tokens(s[1..]), lookup);
      OneToken(Literal(s[0]), lookup);
      ThenThen(Ok([s[0]]), Ok(s[1..][..i - 1]), Expanded(s[i..], lookup));
    }
  }

  lemma OneToken(t: Token, lookup: Lookup)
    ensures Rendered([t], lookup) == TokenText(t, lookup)
  {
    var x := TokenText(t, lookup);
    assert [t][1..] == [];
    if x.Ok? { assert x.value + "" == x.value; }
  }

  lemma AtReference(s: string, lookup: Lookup)
    requires "${" <= s
    ensures var end := Closing(s);
      Expanded(s, lookup) ==
        if end < 0 then Err(Unterminated)
        else Then(TokenText(ReferenceTo(s[2..end]), lookup), Expanded(s[end + 1..], lookup))
  {
    var end := Closing(s);
    if end < 0 {
      OneToken(Unclosed, lookup);
    } else {
      RenderedConcat([ReferenceTo(s[2..end])], Tokens(s[end + 1..]), lookup);
      OneToken(ReferenceTo(s[2..end]), lookup);
    }
  }

  // The loop of the code computes the two-phase meaning; the text left to do shrinks.
  method ExpandEnv(text: string, lookup: Lookup) returns (r: Result<string, EnvError>)
    ensures r == Expanded(text, lookup)
  {
    hide Tokens, Rendered, Index, ReferenceTo;
    var s, b := text, "";
    ThenThen(Expanded(text, lookup), Ok(""), Ok(""));
    while true
      invariant Expanded(text, lookup) == Then(Ok(b), Expanded(s, lookup))
      decreases |s|
    {
      var i := Index(s, "${");
      if i < 0 {
        AllLiteral(s, lookup);
        return Ok(b + s);
      }
      LiteralRun(s, i, lookup);
      ThenThen(Ok(b), Ok(s[..i]), Expanded(s[i..], lookup));
      b := b + s[..i];
      AtReference(s[i..], lookup);
      var end := Closing(s[i..]);
      if end < 0 {
        return Err(Unterminated);
      }
      var expr := s[i..][2..end];
      s := s[i..][end + 1..];
      var piece := Piece(expr, lookup);
      if piece.Err? {
        return piece;
      }
      ThenThen(Ok(b), piece, Expanded(s, lookup));
      b := b + piece.value;
    }
  }

  lemma AllLiteral(s: string, lookup: Lookup)
    requires forall k :: 0 <= k <= |s| ==> !("${" <= s[k..])
    ensures Expanded(s, lookup) == Ok(s)
  {
    LiteralRun(s, |s|, lookup);
    assert s[..|s|] == s && s[|s|..] == "";
    assert s + "" == s;
  }

  // One reference: its value, else its default, else an error.
  method Piece(expr: string, lookup: Lookup) returns (r: Result<string, EnvError>)
    ensures r == TokenText(ReferenceTo(expr), lookup)
    ensures var t := ReferenceTo(expr);
      && t.Reference?
      && (lookup(t.name).Some? ==> r == Ok(lookup(t.name).value))
      && (lookup(t.name).None? && t.fallback.Some? ==> r == Ok(t.fallback.value))
      && (lookup(t.name).None? && t.fallback.None? ==> r == Err(Unset(t.name)))
  {
    var name, def, hasDef := expr, "", false;
    var cut := Index(expr, ":-");
    if cut >= 0 {
      name, def, hasDef := expr[..cut], expr[cut + 2..], true;
    }
    var v := lookup(name);
    if v.Some? {
      return Ok(v.value);
    } else if hasDef {
      return Ok(def);
    } else {
      return Err(Unset(name));
    }
  }

  predicate Occurs(s: string, sub: string) { exists i :: 0 <= i <= |s| && sub <= s[i..] }

  // The first ":-" of a reference, if there is one, ends its name and starts its default.
  lemma DefaultStartsAtTheFirstMark(expr: string)
    ensures var t := ReferenceTo(expr);
      && t.Reference?
      && (t.fallback.None? ==> t.name == expr && !Occurs(expr, ":-"))
      && (t.fallback.Some? ==> expr == t.name + ":-" + t.fallback.value && !Occurs(t.name, ":-"))
  {
    var i := Index(expr, ":-");
    if i >= 0 {
      assert expr[i..][..2] == ":-";
      assert expr == expr[..i] + ":-" + expr[i + 2..];
      forall k | 0 <= k <= i ensures !(":-" <= expr[..i][k..]) {
        if ":-" <= expr[..i][k..] { EarlierMark(expr, i, k); }
      }
    }
  }

  lemma EarlierMark(expr: string, i: nat, k: nat)
    requires k <= i <= |expr| && ":-" <= expr[..i][k..]
    ensures k < i && ":-" <= expr[k..]
  {
    assert expr[k..][0] == expr[..i][k..][0] && expr[k..][1] == expr[..i][k..][1];
  }

  // A token that cannot be rendered.
  predicate Fails(t: Token, lookup: Lookup) {
    t.Unclosed? || (t.Reference? && lookup(t.name).None? && t.fallback.None?)
  }

  // Expansion fails exactly when a reference is unterminated, or unset with no default.
  lemma {:induction false} FailsIff(ts: seq<Token>, lookup: Lookup)
    ensures Rendered(ts, lookup).Err? <==> exists i :: 0 <= i < |ts| && Fails(ts[i], lookup)
  {
    if ts != [] {
      FailsIff(ts[1..], lookup);
      if i :| 0 <= i < |ts[1..]| && Fails(ts[1..][i], lookup) { assert Fails(ts[i + 1], lookup); }
      if i :| 0 < i < |ts| && Fails(ts[i], lookup) { assert Fails(ts[1..][i - 1], lookup); }
    }
  }

  // The first token that cannot be rendered is the error.
  lemma {:induction false} FirstFailureIsTheError(ts: seq<Token>, lookup: Lookup, i: nat)
    requires i < |ts| && Fails(ts[i], lookup) && forall j :: 0 <= j < i ==> !Fails(ts[j], lookup)
    ensures Rendered(ts, lookup) == Err(if ts[i].Unclosed? then Unterminated else Unset(ts[i].name))
  {
    if i > 0 {
      assert !Fails(ts[0], lookup);
      assert ts[1..][i - 1] == ts[i];
      forall j | 0 <= j < i - 1 ensures !Fails(ts[1..][j], lookup) { assert ts[1..][j] == ts[j + 1]; }
      FirstFailureIsTheError(ts[1..], lookup, i - 1);
    }
  }

  // One reference, from text to text: its value even if empty, else its default, else the error.
  lemma OneReference(name: string, lookup: Lookup)
    requires '}' !in name && !Occurs(name, ":-")
    ensures Expanded("${" + name + "}", lookup) ==
      if lookup(name).Some? then Ok(lookup(name).value) else Err(Unset(name))
  {
    hide Index, Closing, Tokens, Rendered, ReferenceTo;
    var s := "${" + name + "}";
    assert s[0] == '$' && s[1] == '{' && "${" <= s;
    ClosesAtTheEnd(name);
    AtReference(s, lookup);
    assert s[2..|name| + 2] == name && s[|name| + 3..] == "";
    NoMark(name);
    Nothing(lookup);
    if lookup(name).Some? { assert lookup(name).value + "" == lookup(name).value; }
  }

  lemma NoMark(name: string)
    requires !Occurs(name, ":-")
    ensures ReferenceTo(name) == Reference(name, None)
  {
    DefaultStartsAtTheFirstMark(name);
    var t := ReferenceTo(name);
    if t.fallback.Some? { MarkOccurs(t.name, t.fallback.value); }
  }

  lemma MarkOccurs(a: string, b: string)
    ensures Occurs(a + ":-" + b, ":-")
  {
    var s := a + ":-" + b;
    assert s[|a|..] == ":-" + b;
  }

  lemma Nothing(lookup: Lookup)
    ensures Expanded("", lookup) == Ok("")
  {
  }

  lemma ClosesAtTheEnd(name: string)
    requires '}' !in name
    ensures "${" <= "${" + name + "}" && Closing("${" + name + "}") == |name| + 2
  {
    hide Closing, Index;
    var s := "${" + name + "}";
    assert s[|name| + 2] == '}' && s[0] == '$' && s[1] == '{';
    forall k | 0 <= k < |name| + 2 ensures s[k] != '}' { if k >= 2 { assert s[k] == name[k - 2]; } }
  }

  // The names looked up are those written in the text: no value that comes back is scanned again.
  lemma {:induction false} OnlyTheTextsNamesMatter(ts: seq<Token>, f: Lookup, g: Lookup)
    requires forall i :: 0 <= i < |ts| && ts[i].Reference? ==> f(ts[i].name) == g(ts[i].name)
    ensures Rendered(ts, f) == Rendered(ts, g)
  {
    if ts != [] { OnlyTheTextsNamesMatter(ts[1..], f, g); }
  }

  // How a token was written.
  function Spelling(t: Token): string {
    match t
    case Literal(c) => [c]
    case Unclosed => ""
    case Reference(name, fallback) =>
      "${" + name + (if fallback.None? then "" else ":-" + fallback.value) + "}"
  }

  function Written(ts: seq<Token>): string {
    if ts == [] then "" else Spelling(ts[0]) + Written(ts[1..])
  }

  // Cutting loses nothing: the tokens of a text whose references all close spell it out again.
  lemma {:induction false} TokensSpellTheText(s: string)
    requires Unclosed !in Tokens(s)
    ensures Written(Tokens(s)) == s
    decreases |s|, 1
  {
    if s != "" {
      assert Boundary(s, "");
      TokensSpellTheTextStep(s);
    }
  }

  lemma {:induction false} TokensSpellTheTextStep(s: string)
    requires s != "" && Boundary(s, "")
    ensures Written(Tokens(s)) == s
    decreases |s|, 0
  {
    hide Tokens, Closing, Index, ReferenceTo, Spelling;
    if !("${" <= s) {
      LiteralStep(s, "");
      TokensSpellTheText(s[1..]);
      WrittenCons(Literal(s[0]), Tokens(s[1..]));
    } else {
      ReferenceStep(s, "");
      var end := Closing(s);
      TokensSpellTheText(s[end + 1..]);
      WrittenCons(ReferenceTo(s[2..end]), Tokens(s[end + 1..]));
      ReferenceSpelled(s[2..end]);
      assert s == "${" + s[2..end] + "}" + s[end + 1..];
    }
  }

  lemma WrittenCons(t: Token, ts: seq<Token>)
    ensures Written([t] + ts) == Spelling(t) + Written(ts)
    ensures t.Literal? ==> Spelling(t) == [t.c]
  {
    assert ([t] + ts)[1..] == ts;
  }

  lemma ReferenceSpelled(expr: string)
    ensures Spelling(ReferenceTo(expr)) == "${" + expr + "}"
  {
    hide Index, ReferenceTo, Occurs;
    DefaultStartsAtTheFirstMark(expr);
    var t := ReferenceTo(expr);
    if t.fallback.Some? {
      assert "${" + t.name + (":-" + t.fallback.value) + "}" == "${" + (t.name + ":-" + t.fallback.value) + "}";
    } else {
      assert t.name + "" == t.name;
    }
  }

  // The cut between a and b falls between two tokens.
  predicate Boundary(a: string, b: string) {
    Unclosed !in Tokens(a) && !(a != "" && a[|a| - 1] == '$' && b != "" && b[0] == '{')
  }

  lemma {:induction false} TokensConcat(a: string, b: string)
    requires Boundary(a, b)
    ensures Tokens(a + b) == Tokens(a) + Tokens(b)
    decreases |a|, 1
  {
    if a == "" {
      assert a + b == b;
    } else {
      TokensConcatStep(a, b);
    }
  }

  lemma {:induction false} TokensConcatStep(a: string, b: string)
    requires Boundary(a, b) && a != ""
    ensures Tokens(a + b) == Tokens(a) + Tokens(b)
    decreases |a|, 0
  {
    hide Tokens, Boundary, Closing, Index;
    if !("${" <= a) {
      LiteralStep(a, b);
      TokensConcat(a[1..], b);
      Regroup(Literal(a[0]), Tokens(a[1..]), Tokens(b));
    } else {
      ReferenceStep(a, b);
      TokensConcat(a[Closing(a) + 1..], b);
      Regroup(ReferenceTo(a[2..Closing(a)]), Tokens(a[Closing(a) + 1..]), Tokens(b));
    }
  }

  lemma Regroup(t: Token, x: seq<Token>, y: seq<Token>)
    ensures [t] + (x + y) == ([t] + x) + y
  {
  }

  lemma LiteralStep(a: string, b: string)
    requires Boundary(a, b) && a != "" && !("${" <= a)
    ensures Boundary(a[1..], b)
    ensures Tokens(a) == [Literal(a[0])] + Tokens(a[1..])
    ensures Tokens(a + b) == [Literal(a[0])] + Tokens(a[1..] + b)
  {
    hide Closing, Index;
    assert Tokens(a) == [Literal(a[0])] + Tokens(a[1..]);
    assert (a + b)[0] == a[0] && (a + b)[1..] == a[1..] + b;
    assert |a| >= 2 ==> (a + b)[1] == a[1];
    assert |a| == 1 && b != "" ==> (a + b)[1] == b[0];
    assert !("${" <= a + b);
  }

  lemma ReferenceStep(a: string, b: string)
    requires Boundary(a, b) && "${" <= a
    ensures Closing(a) >= 0 && Boundary(a[Closing(a) + 1..], b)
    ensures Tokens(a) == [ReferenceTo(a[2..Closing(a)])] + Tokens(a[Closing(a) + 1..])
    ensures Tokens(a + b) == [ReferenceTo(a[2..Closing(a)])] + Tokens(a[Closing(a) + 1..] + b)
  {
    hide Tokens, Index, ReferenceTo, Closing, Boundary;
    TokensAtReference(a);
    AllClosed(a, b);
    var end := Closing(a);
    TailBoundary(a, b, end);
    SameEnd(a, b);
    TokensAtReference(a + b);
    assert (a + b)[2..end] == a[2..end] && (a + b)[end + 1..] == a[end + 1..] + b;
  }

  lemma AllClosed(a: string, b: string)
    requires Boundary(a, b)
    ensures Unclosed !in Tokens(a)
  {
    hide Tokens;
  }

  lemma TokensAtReference(s: string)
    requires "${" <= s
    ensures var end := Closing(s);
      Tokens(s) == if end < 0 then [Unclosed] else [ReferenceTo(s[2..end])] + Tokens(s[end + 1..])
  {
    hide Index, ReferenceTo, Closing;
  }

  // Whatever follows the reference at the start is still cut cleanly from b.
  lemma TailBoundary(a: string, b: string, end: nat)
    requires Boundary(a, b) && 2 <= end < |a| && a[end] == '}'
    requires forall t :: t in Tokens(a[end + 1..]) ==> t in Tokens(a)
    ensures Boundary(a[end + 1..], b)
  {
    hide Tokens;
    var tail := a[end + 1..];
    assert tail != "" ==> tail[|tail| - 1] == a[|a| - 1];
  }

  lemma SameEnd(a: string, b: string)
    requires "${" <= a && Closing(a) >= 0
    ensures "${" <= a + b && Closing(a + b) == Closing(a)
  {
    hide Index, Closing;
    assert (a + b)[0] == a[0] && (a + b)[1] == a[1];
    var end := Closing(a);
    assert (a + b)[end] == '}';
    assert forall k :: 0 <= k < end ==> (a + b)[k] == a[k];
  }

  // Expansion distributes over concatenation at token boundaries.
  lemma ExpansionDistributes(a: string, b: string, lookup: Lookup)
    requires Boundary(a, b)
    ensures Expanded(a + b, lookup) == Then(Expanded(a, lookup), Expanded(b, lookup))
  {
    TokensConcat(a, b);
    RenderedConcat(Tokens(a), Tokens(b), lookup);
  }
}
