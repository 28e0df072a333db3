/** The request path of the static handler, cleanRequestPath of terminal/static.go. */
module StaticPath {
  import opened Wrappers
  import opened Text
  import opened Paths

  function TrimPrefix(s: string, prefix: string): string { if prefix <= s then s[|prefix|..] else s }

  // What is left of the URL path when the prefix and one slash are off.
  function Trimmed(urlPath: string, stripPrefix: string): string { TrimPrefix(TrimPrefix(urlPath, stripPrefix), "/") }

  // The prefix goes where it leads the path, and one slash after it; a path without the prefix keeps all but its slash.
  lemma TrimmedIs(prefix: string, rest: string)
    ensures Trimmed(prefix + "/" + rest, prefix) == rest
    ensures rest == "" || rest[0] != '/' ==> Trimmed(prefix + rest, prefix) == rest
    ensures !(prefix <= "/" + rest) ==> Trimmed("/" + rest, prefix) == rest
  {
    assert (prefix + "/" + rest)[|prefix|..] == "/" + rest && ("/" + rest)[1..] == rest;
    assert (prefix + rest)[|prefix|..] == rest;
  }

  // A dotfile or a step upwards.
  predicate Hidden(seg: string) { seg != "" && seg != "." && seg[0] == '.' }

  predicate SomeHidden(segs: seq<string>) { exists i :: 0 <= i < |segs| && Hidden(segs[i]) }

  method CleanRequestPath(urlPath: string, stripPrefix: string) returns (r: Option<string>)
    ensures r.None? <==> SomeHidden(Split(Trimmed(urlPath, stripPrefix), '/'))
    ensures var segs := Split(Trimmed(urlPath, stripPrefix), '/');
      r.None? <==> exists i :: 0 <= i < |segs| && "." <= segs[i] && segs[i] != "."
    ensures r.Some? ==> r.value == Served(Trimmed(urlPath, stripPrefix))
  {
    var p := urlPath;
    if stripPrefix != "" {
      p := TrimPrefix(p, stripPrefix);
    }
    p := TrimPrefix(p, "/");
    assert p == Trimmed(urlPath, stripPrefix);
    var segs := Split(p, '/');
    for i := 0 to |segs|
      invariant forall j :: 0 <= j < i ==> !Hidden(segs[j])
    {
      if segs[i] == "" || segs[i] == "." {
        continue;
      }
      if "." <= segs[i] {
        assert Hidden(segs[i]) && "." <= segs[i];
        return None;
      }
    }
    p := Clean(p);
    if p == "." {
      return Some("");
    }
    return Some(p);
  }

  // The served path: the cleaned one, with "." for the root as the empty path.
  function Served(p: string): string { if Clean(p) == "." then "" else Clean(p) }

  /**
    Cleaning loses nothing and never climbs: the segments of the path that is
    served are exactly the named segments of an accepted path, in order, none of
    them starting with a dot; a path that names nothing is served as the root;
    and the result starts with a slash exactly when the trimmed path still did.
   */
  lemma ServedKeepsSegments(p: string)
    requires !SomeHidden(Split(p, '/'))
    ensures Real(Split(p, '/')) != [] ==>
      Split(Served(p), '/') == (if Rooted(p) then [""] else []) + Real(Split(p, '/'))
    ensures Real(Split(p, '/')) == [] ==> Served(p) == if Rooted(p) then "/" else ""
    ensures forall k :: 0 <= k < |Real(Split(p, '/'))| ==> !("." <= Real(Split(p, '/'))[k])
    ensures Rooted(Served(p)) <==> Rooted(p)
  {
    var segs := Split(p, '/');
    var named := Real(segs);
    assert Hidden("..");
    ResolvePlain(Rooted(p), [], segs);
    forall k | 0 <= k < |named| ensures named[k] != "" && named[k] != "." && named[k][0] != '.' && '/' !in named[k] {
      RealMember(segs, k);
      var i :| 0 <= i < |segs| && segs[i] == named[k];
      assert !Hidden(segs[i]);
      PiecesAreFree(p, '/', i);
    }
    if named == [] {
      ServedRoot(p);
    } else {
      RenderSegments(Rooted(p), named);
      ServedIsRendered(p, named);
    }
  }

  lemma ServedRoot(p: string)
    requires Kept(p) == []
    ensures Served(p) == if Rooted(p) then "/" else ""
  {
    assert "/" + Join([], "/") == "/";
  }

  lemma ServedIsRendered(p: string, named: seq<string>)
    requires Kept(p) == named && named != [] && named[0] != "" && named[0] != "." && named[0][0] != '.'
    requires '/' !in named[0]
    ensures Served(p) == Render(Rooted(p), named) && (Rooted(Served(p)) <==> Rooted(p))
  {
    assert named[0][0] in named[0];
    if !Rooted(p) {
      assert Join(named, "/")[0] == named[0][0];
    }
  }
}
