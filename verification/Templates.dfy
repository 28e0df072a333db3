/**
  Path templates of the aggregating handler (terminal/aggregate.go): `{name}`
  is replaced by a path value of the request, and the result is joined onto the
  backend's base path.
 */
module Templates {
  import opened Wrappers
  import opened Text
  import opened Paths

  function IndexByte(s: string, c: char): (i: int)
    ensures -1 <= i < |s|
    ensures i == -1 <==> c !in s
    ensures i >= 0 ==> s[i] == c && forall k :: 0 <= k < i ==> s[k] != c
  {
    if s == "" then -1
    else if s[0] == c then 0
    else
      var i := IndexByte(s[1..], c);
      if i < 0 then -1 else i + 1
  }

  predicate SafePathValue(v: string) { v != "" && '/' !in v && '\\' !in v && !Dots(v) }

  function Prepend(lit: string, rest: Option<string>): Option<string> {
    if rest.None? then None else Some(lit + rest.value)
  }

  // Character by character; a brace that is never closed is literal.
  function Substituted(p: string, value: string -> string): Option<string>
    decreases |p|
  {
    if p == "" then Some("")
    else if p[0] != '{' then Prepend([p[0]], Substituted(p[1..], value))
    else
      var j := IndexByte(p, '}');
      if j < 0 then Some(p)
      else if !SafePathValue(value(p[1..j])) then None
      else Prepend(value(p[1..j]), Substituted(p[j + 1..], value))
  }

  // No placeholder's name has a slash in it.
  predicate NamesAreSegments(p: string)
    decreases |p|
  {
    if p == "" then true
    else if p[0] != '{' then NamesAreSegments(p[1..])
    else
      var j := IndexByte(p, '}');
      j < 0 || ('/' !in p[1..j] && NamesAreSegments(p[j + 1..]))
  }

  lemma {:induction false} LiteralPrefix(lit: string, p: string, value: string -> string)
    requires '{' !in lit
    ensures Substituted(lit + p, value) == Prepend(lit, Substituted(p, value))
  {
    if lit == "" {
      assert lit + p == p;
      assert Substituted(p, value).Some? ==> "" + Substituted(p, value).value == Substituted(p, value).value;
    } else {
      assert lit[0] in lit;
      assert (lit + p)[1..] == lit[1..] + p;
      LiteralPrefix(lit[1..], p, value);
      assert Substituted(p, value).Some? ==>
        [lit[0]] + (lit[1..] + Substituted(p, value).value) == lit + Substituted(p, value).value;
    }
  }

  lemma PrependTwice(a: string, b: string, rest: Option<string>)
    ensures Prepend(a, Prepend(b, rest)) == Prepend(a + b, rest)
  {
    if rest.Some? { assert a + (b + rest.value) == (a + b) + rest.value; }
  }

  lemma AtBrace(p: string, value: string -> string)
    requires p != "" && p[0] == '{'
    ensures var j := IndexByte(p, '}');
      Substituted(p, value) ==
        if j < 0 then Some(p)
        else if !SafePathValue(value(p[1..j])) then None
        else Prepend(value(p[1..j]), Substituted(p[j + 1..], value))
  {
  }

  // What the first opening brace makes of the text.
  lemma AtFirstBrace(p: string, i: nat, value: string -> string)
    requires IndexByte(p, '{') == i
    ensures var j := IndexByte(p[i..], '}');
      Substituted(p, value) ==
        if j < 0 then Some(p)
        else if !SafePathValue(value(p[i + 1..i + j])) then None
        else Prepend(p[..i] + value(p[i + 1..i + j]), Substituted(p[i + j + 1..], value))
  {
    hide Substituted, IndexByte, SafePathValue;
    var rest := p[i..];
    var j := IndexByte(rest, '}');
    LiteralPrefix(p[..i], rest, value);
    AtBrace(rest, value);
    assert p[..i] + rest == p;
    if j >= 0 {
      assert rest[1..j] == p[i + 1..i + j] && rest[j + 1..] == p[i + j + 1..];
      PrependTwice(p[..i], value(p[i + 1..i + j]), Substituted(p[i + j + 1..], value));
    }
  }

  lemma NoBraces(p: string, value: string -> string)
    requires '{' !in p
    ensures Substituted(p, value) == Some(p)
  {
    LiteralPrefix(p, "", value);
    assert p + "" == p;
  }

  /**
    A placeholder is filled with the request's value, unless that is empty, has a
    separator in it or is a dot segment, which refuses the whole; the text before
    it is copied and the text after it is treated in turn.
   */
  lemma PlaceholderIsFilled(lit: string, name: string, rest: string, value: string -> string)
    requires '{' !in lit && '}' !in name
    ensures var v := value(name);
      Substituted(lit + "{" + name + "}" + rest, value) ==
        if v == "" || '/' in v || '\\' in v || v == "." || v == ".." || Substituted(rest, value).None? then None
        else Some(lit + v + Substituted(rest, value).value)
  {
    hide Substituted, IndexByte;
    var p := "{" + name + "}" + rest;
    assert lit + "{" + name + "}" + rest == lit + p;
    LiteralPrefix(lit, p, value);
    ClosingBrace(name, rest);
    AtBrace(p, value);
    assert p[1..|name| + 1] == name && p[|name| + 2..] == rest;
    PrependTwice(lit, value(name), Substituted(rest, value));
  }

  lemma ClosingBrace(name: string, rest: string)
    requires '}' !in name
    ensures IndexByte("{" + name + "}" + rest, '}') == |name| + 1
  {
    hide IndexByte;
    var p := "{" + name + "}" + rest;
    assert p[|name| + 1] == '}';
    forall k | 0 <= k < |name| + 1 ensures p[k] != '}' {
      if k > 0 { assert p[k] == name[k - 1]; }
    }
  }

  method SubstituteParams(template: string, value: string -> string) returns (r: Option<string>)
    ensures r == Substituted(template, value)
  {
    hide Substituted, IndexByte, SafePathValue;
    var p, b := template, "";
    LiteralPrefix("", p, value);
    assert "" + p == p;
    while true
      invariant Substituted(template, value) == Prepend(b, Substituted(p, value))
      decreases |p|
    {
      var i := IndexByte(p, '{');
      if i < 0 {
        NoBraces(p, value);
        return Some(b + p);
      }
      AtFirstBrace(p, i, value);
      var j := IndexByte(p[i..], '}');
      if j < 0 {
        return Some(b + p);
      }
      var v := value(p[i + 1..i + j]);
      if !SafePathValue(v) {
        return None;
      }
      PrependTwice(b, p[..i] + v, Substituted(p[i + j + 1..], value));
      b := b + (p[..i] + v);
      p := p[i + j + 1..];
    }
  }

  /* ---- segment by segment ---- */

  lemma {:induction false} UnclosedIsLiteral(p: string, value: string -> string)
    requires '}' !in p
    ensures Substituted(p, value) == Some(p)
  {
    if p != "" && p[0] != '{' {
      UnclosedIsLiteral(p[1..], value);
      assert [p[0]] + p[1..] == p;
    }
  }

  function Around(x: Option<string>, y: Option<string>): Option<string> {
    if x.None? || y.None? then None else Some(x.value + "/" + y.value)
  }

  lemma PrependAround(lit: string, x: Option<string>, y: Option<string>)
    ensures Prepend(lit, Around(x, y)) == Around(Prepend(lit, x), y)
  {
    if x.Some? && y.Some? { assert lit + (x.value + "/" + y.value) == (lit + x.value) + "/" + y.value; }
  }

  // A slash outside the placeholders separates two templates.
  lemma {:induction false} SlashSeparates(a: string, b: string, value: string -> string)
    requires NamesAreSegments(a + "/" + b)
    ensures NamesAreSegments(b)
    ensures Substituted(a + "/" + b, value) == Around(Substituted(a, value), Substituted(b, value))
    decreases |a|
  {
    var whole := a + "/" + b;
    if a == "" {
      assert whole[0] == '/' && whole[1..] == b;
      var y := Substituted(b, value);
      assert y.Some? ==> "" + "/" + y.value == ['/'] + y.value;
    } else if a[0] != '{' {
      assert whole[1..] == a[1..] + "/" + b;
      SlashSeparates(a[1..], b, value);
      PrependAround([a[0]], Substituted(a[1..], value), Substituted(b, value));
    } else if IndexByte(whole, '}') < 0 {
      UnclosedSeparates(a, b, value);
    } else {
      var j := IndexByte(whole, '}');
      CloseIsInside(a, b);
      ClosedInside(a, b, j);
      assert whole[j + 1..] == a[j + 1..] + "/" + b && whole[1..j] == a[1..j];
      SlashSeparates(a[j + 1..], b, value);
      PrependAround(value(a[1..j]), Substituted(a[j + 1..], value), Substituted(b, value));
    }
  }

  lemma UnclosedSeparates(a: string, b: string, value: string -> string)
    requires a != "" && a[0] == '{' && '}' !in a + "/" + b
    ensures NamesAreSegments(b) && Substituted(a, value) == Some(a) && Substituted(b, value) == Some(b)
  {
    var whole := a + "/" + b;
    forall k | 0 <= k < |b| ensures b[k] != '}' { assert whole[|a| + 1 + k] == b[k]; }
    forall k | 0 <= k < |a| ensures a[k] != '}' { assert whole[k] == a[k]; }
    UnclosedIsLiteral(b, value);
    NoNames(b);
  }

  lemma CloseIsInside(a: string, b: string)
    requires a != "" && a[0] == '{' && NamesAreSegments(a + "/" + b) && IndexByte(a + "/" + b, '}') >= 0
    ensures IndexByte(a + "/" + b, '}') < |a|
  {
    var whole := a + "/" + b;
    var j := IndexByte(whole, '}');
    assert whole[|a|] == '/';
    if j > |a| { InSlice(whole, 1, |a|, j); }
  }

  lemma InSlice(s: string, i: nat, k: nat, j: nat)
    requires i <= k < j <= |s|
    ensures s[k] in s[i..j]
  {
    assert s[i..j][k - i] == s[k];
  }

  lemma ClosedInside(a: string, b: string, j: nat)
    requires j < |a| && IndexByte(a + "/" + b, '}') == j
    ensures IndexByte(a, '}') == j
  {
    assert (a + "/" + b)[j] == a[j];
    forall k | 0 <= k < j ensures a[k] != '}' { assert (a + "/" + b)[k] == a[k]; }
  }

  lemma {:induction false} NoNames(p: string)
    requires '}' !in p
    ensures NamesAreSegments(p)
  {
    if p != "" && p[0] != '{' { NoNames(p[1..]); }
  }

  lemma {:induction false} StaysOneSegment(p: string, value: string -> string)
    requires '/' !in p && Substituted(p, value).Some?
    ensures '/' !in Substituted(p, value).value
  {
    if p != "" && p[0] != '{' {
      assert p[0] in p;
      StaysOneSegment(p[1..], value);
    } else if p != "" && IndexByte(p, '}') >= 0 {
      StaysOneSegment(p[IndexByte(p, '}') + 1..], value);
    }
  }

  // The text is the template's own, or has a path value in it.
  lemma {:induction false} LiteralOrHoldsValue(p: string, value: string -> string)
    requires Substituted(p, value).Some?
    ensures Substituted(p, value).value == p
         || exists i, j ::
           0 <= i <= j <= |Substituted(p, value).value| && SafePathValue(Substituted(p, value).value[i..j])
    decreases |p|
  {
    var r := Substituted(p, value).value;
    if p != "" && p[0] != '{' {
      LiteralOrHoldsValue(p[1..], value);
      var rest := Substituted(p[1..], value).value;
      if rest == p[1..] {
        assert [p[0]] + p[1..] == p;
      } else {
        var i, j :| 0 <= i <= j <= |rest| && SafePathValue(rest[i..j]);
        assert r[i + 1..j + 1] == rest[i..j];
      }
    } else if p != "" && IndexByte(p, '}') >= 0 {
      var v := value(p[1..IndexByte(p, '}')]);
      assert r[0..|v|] == v;
    }
  }

  // A segment with a placeholder in it never becomes empty, "." or "..", whatever it is mixed with.
  lemma ValuesNeverMakeDots(seg: string, value: string -> string)
    requires Substituted(seg, value).Some?
    ensures Substituted(seg, value).value == "" || Dots(Substituted(seg, value).value) ==>
      Substituted(seg, value).value == seg
  {
    var r := Substituted(seg, value).value;
    LiteralOrHoldsValue(seg, value);
    if r != seg && (r == "" || Dots(r)) {
      var i, j :| 0 <= i <= j <= |r| && SafePathValue(r[i..j]);
      NoValueInDots(r, i, j);
    }
  }

  lemma NoValueInDots(r: string, i: nat, j: nat)
    requires (r == "" || Dots(r)) && i <= j <= |r|
    ensures !SafePathValue(r[i..j])
  {
    assert r[i..j] == "" || r[i..j] == "." || r[i..j] == "..";
  }

  function EachSubstituted(segs: seq<string>, value: string -> string): Option<seq<string>> {
    if segs == [] then Some([])
    else
      var x, rest := Substituted(segs[0], value), EachSubstituted(segs[1..], value);
      if x.None? || rest.None? then None else Some([x.value] + rest.value)
  }

  lemma {:induction false} EachConcat(a: string, segs: seq<string>, value: string -> string)
    ensures EachSubstituted([a] + segs, value) ==
      var x, rest := Substituted(a, value), EachSubstituted(segs, value);
      if x.None? || rest.None? then None else Some([x.value] + rest.value)
  {
    assert ([a] + segs)[1..] == segs;
  }

  lemma OneSegment(p: string, value: string -> string)
    requires '/' !in p && Substituted(p, value).Some?
    ensures EachSubstituted(Split(p, '/'), value) == Some(Split(Substituted(p, value).value, '/'))
  {
    SplitFree(p, '/');
    StaysOneSegment(p, value);
    SplitFree(Substituted(p, value).value, '/');
    EachConcat(p, [], value);
    assert [p] + [] == [p] && EachSubstituted([], value) == Some([]);
    assert [Substituted(p, value).value] + [] == [Substituted(p, value).value];
  }

  // Substituting and splitting commute.
  lemma {:induction false} SegmentWise(p: string, value: string -> string)
    requires NamesAreSegments(p) && Substituted(p, value).Some?
    ensures EachSubstituted(Split(p, '/'), value) == Some(Split(Substituted(p, value).value, '/'))
    decreases |p|
  {
    var r := Substituted(p, value).value;
    var k := IndexByte(p, '/');
    if k < 0 {
      OneSegment(p, value);
    } else {
      var a, b := p[..k], p[k + 1..];
      assert p == a + "/" + b;
      SlashSeparates(a, b, value);
      var x, y := Substituted(a, value).value, Substituted(b, value).value;
      SegmentWise(b, value);
      assert '/' !in a;
      StaysOneSegment(a, value);
      SplitFree(a, '/');
      SplitFree(x, '/');
      SplitConcat(a, b, '/');
      SplitConcat(x, y, '/');
      EachConcat(a, Split(b, '/'), value);
    }
  }

  lemma {:induction false} EachKeepsShape(segs: seq<string>, value: string -> string)
    requires EachSubstituted(segs, value).Some? && forall i :: 0 <= i < |segs| ==> !Dots(segs[i])
    ensures var out := EachSubstituted(segs, value).value;
      && |out| == |segs|
      && (forall i :: 0 <= i < |out| ==> !Dots(out[i]))
      && EachSubstituted(Real(segs), value) == Some(Real(out))
  {
    if segs != [] {
      var out := EachSubstituted(segs, value).value;
      ValuesNeverMakeDots(segs[0], value);
      EachKeepsShape(segs[1..], value);
      assert out[1..] == EachSubstituted(segs[1..], value).value;
      if segs[0] == "" {
        assert Real(segs) == Real(segs[1..]) && out[0] == "" && Real(out) == Real(out[1..]);
      } else {
        assert Real(segs) == [segs[0]] + Real(segs[1..]);
        EachConcat(segs[0], Real(segs[1..]), value);
      }
    }
  }

  lemma JoinedOnto(base: string, sub: string)
    requires base != "" && sub != "" && forall i :: 0 <= i < |Split(sub, '/')| ==> !Dots(Split(sub, '/')[i])
    ensures JoinPath(base, sub) == Render(Rooted(base), Kept(base) + Real(Split(sub, '/')))
  {
    SplitConcat(base, sub, '/');
    assert base + ['/'] + sub == base + "/" + sub;
    ResolveConcat(Rooted(base), [], Split(base, '/'), Split(sub, '/'));
    ResolvePlain(Rooted(base), Kept(base), Split(sub, '/'));
  }

  lemma SubstitutedShape(template: string, value: string -> string)
    requires template != "" && NamesAreSegments(template) && Substituted(template, value).Some?
    requires forall i :: 0 <= i < |Split(template, '/')| ==> !Dots(Split(template, '/')[i])
    ensures var sub := Substituted(template, value).value;
      && sub != ""
      && (forall i :: 0 <= i < |Split(sub, '/')| ==> !Dots(Split(sub, '/')[i]))
      && EachSubstituted(Real(Split(template, '/')), value) == Some(Real(Split(sub, '/')))
  {
    SegmentWise(template, value);
    EachKeepsShape(Split(template, '/'), value);
    ValuesNeverMakeDots(template, value);
  }

  // The template has no literal "." or ".." segment, and no placeholder spans a slash.
  predicate WellShaped(template: string) {
    && template != "" && NamesAreSegments(template)
    && forall i :: 0 <= i < |Split(template, '/')| ==> !Dots(Split(template, '/')[i])
  }

  // The template's own segments, each with its placeholders filled in.
  function Filled(template: string, value: string -> string): Option<seq<string>> {
    EachSubstituted(Real(Split(template, '/')), value)
  }

  /**
    Templates keep their shape: when a well-shaped template is accepted, the
    segments of the backend path are the base's own followed by exactly the
    template's, as many as there were.
   */
  lemma TemplateKeepsShape(base: string, template: string, value: string -> string)
    requires base != "" && WellShaped(template) && Substituted(template, value).Some?
    ensures Filled(template, value).Some? && |Filled(template, value).value| == |Real(Split(template, '/'))|
    ensures var path := JoinPath(base, Substituted(template, value).value);
            var segs := Kept(base) + Filled(template, value).value;
      && path == Render(Rooted(base), segs)
      && (segs != [] ==> Split(path, '/') == (if Rooted(base) then [""] else []) + segs)
  {
    var sub := Substituted(template, value).value;
    SubstitutedShape(template, value);
    EachLength(Real(Split(template, '/')), value);
    JoinedOnto(base, sub);
    SplitIsSlashFree(base);
    SplitIsSlashFree(sub);
    var segs := Kept(base) + Real(Split(sub, '/'));
    assert SlashFree(segs);
    if segs != [] { RenderSegments(Rooted(base), segs); }
  }

  // The same with no base path: the template's own segments, rooted as the template is.
  lemma TemplateKeepsShapeAlone(template: string, value: string -> string)
    requires WellShaped(template) && Substituted(template, value).Some?
    ensures Filled(template, value).Some? && |Filled(template, value).value| == |Real(Split(template, '/'))|
    ensures var path, segs := JoinPath("", Substituted(template, value).value), Filled(template, value).value;
      && path == Render(Rooted(template), segs)
      && (segs != [] ==> Split(path, '/') == (if Rooted(template) then [""] else []) + segs)
  {
    var sub := Substituted(template, value).value;
    SubstitutedShape(template, value);
    EachLength(Real(Split(template, '/')), value);
    CleanPlain(sub);
    SplitIsSlashFree(sub);
    SameRoot(template, value);
    if Real(Split(sub, '/')) != [] { RenderSegments(Rooted(sub), Real(Split(sub, '/'))); }
  }

  // No value can start a path with a slash.
  lemma SameRoot(template: string, value: string -> string)
    requires Substituted(template, value).Some?
    ensures Rooted(Substituted(template, value).value) <==> Rooted(template)
  {
  }

  lemma {:induction false} EachLength(segs: seq<string>, value: string -> string)
    requires EachSubstituted(segs, value).Some?
    ensures |EachSubstituted(segs, value).value| == |segs|
  {
    if segs != [] { EachLength(segs[1..], value); }
  }
}
