/** Go's path.Clean and path.Join, by segments. */
module Paths {
  import opened Text

  predicate Rooted(p: string) { p != "" && p[0] == '/' }

  // One segment onto the stack of kept ones.
  function Push(rooted: bool, stack: seq<string>, seg: string): seq<string> {
    if seg == "" || seg == "." then stack
    else if seg == ".." then
      if stack != [] && stack[|stack| - 1] != ".." then stack[..|stack| - 1]
      else if rooted then stack
      else stack + [".."]
    else stack + [seg]
  }

  function Resolve(rooted: bool, stack: seq<string>, segs: seq<string>): seq<string>
    decreases |segs|
  {
    if segs == [] then stack else Resolve(rooted, Push(rooted, stack, segs[0]), segs[1..])
  }

  // The segments that are left of a path.
  function Kept(p: string): seq<string> { Resolve(Rooted(p), [], Split(p, '/')) }

  function Render(rooted: bool, segs: seq<string>): string {
    if rooted then "/" + Join(segs, "/") else if segs == [] then "." else Join(segs, "/")
  }

  function Clean(p: string): string { Render(Rooted(p), Kept(p)) }

  // Empty elements are ignored.
  function JoinPath(a: string, b: string): string {
    if a == "" && b == "" then "" else if a == "" then Clean(b) else if b == "" then Clean(a) else Clean(a + "/" + b)
  }

  predicate Dots(seg: string) { seg == "." || seg == ".." }

  // The segments that name something: neither empty nor a dot.
  function Real(segs: seq<string>): seq<string> {
    if segs == [] then []
    else (if segs[0] == "" || segs[0] == "." then [] else [segs[0]]) + Real(segs[1..])
  }

  lemma {:induction false} ResolveConcat(rooted: bool, stack: seq<string>, a: seq<string>, b: seq<string>)
    ensures Resolve(rooted, stack, a + b) == Resolve(rooted, Resolve(rooted, stack, a), b)
    decreases |a|
  {
    if a == [] {
      assert a + b == b;
    } else {
      assert (a + b)[0] == a[0] && (a + b)[1..] == a[1..] + b;
      ResolveConcat(rooted, Push(rooted, stack, a[0]), a[1..], b);
    }
  }

  // Without "..", cleaning only drops the segments that name nothing.
  lemma {:induction false} ResolvePlain(rooted: bool, stack: seq<string>, segs: seq<string>)
    requires forall i :: 0 <= i < |segs| ==> segs[i] != ".."
    ensures Resolve(rooted, stack, segs) == stack + Real(segs)
    decreases |segs|
  {
    if segs != [] {
      var next := Push(rooted, stack, segs[0]);
      ResolvePlain(rooted, next, segs[1..]);
      var here := if segs[0] == "" || segs[0] == "." then [] else [segs[0]];
      assert next == stack + here;
      assert (stack + here) + Real(segs[1..]) == stack + (here + Real(segs[1..]));
    }
  }

  lemma CleanPlain(p: string)
    requires forall i :: 0 <= i < |Split(p, '/')| ==> Split(p, '/')[i] != ".."
    ensures Kept(p) == Real(Split(p, '/'))
  {
    ResolvePlain(Rooted(p), [], Split(p, '/'));
    assert [] + Real(Split(p, '/')) == Real(Split(p, '/'));
  }

  // Reading the segments of a rendered path gives them back.
  lemma RenderSegments(rooted: bool, segs: seq<string>)
    requires segs != [] && SlashFree(segs)
    ensures Split(Render(rooted, segs), '/') == (if rooted then [""] else []) + segs
  {
    SplitJoin(segs, '/');
    if rooted {
      SplitConcat("", Join(segs, "/"), '/');
      assert "" + ['/'] + Join(segs, "/") == "/" + Join(segs, "/");
    }
  }

  lemma {:induction false} RealMember(segs: seq<string>, k: nat)
    requires k < |Real(segs)|
    ensures Real(segs)[k] in segs && Real(segs)[k] != "" && Real(segs)[k] != "."
  {
    var here := if segs[0] == "" || segs[0] == "." then 0 else 1;
    if k >= here { RealMember(segs[1..], k - here); }
  }

  predicate SlashFree(segs: seq<string>) { forall i :: 0 <= i < |segs| ==> '/' !in segs[i] }

  // Cleaning makes up no slashes inside segments.
  lemma {:induction false} ResolveFree(rooted: bool, stack: seq<string>, segs: seq<string>)
    requires SlashFree(stack) && SlashFree(segs)
    ensures SlashFree(Resolve(rooted, stack, segs))
    decreases |segs|
  {
    if segs != [] { ResolveFree(rooted, Push(rooted, stack, segs[0]), segs[1..]); }
  }

  lemma SplitIsSlashFree(p: string)
    ensures SlashFree(Split(p, '/')) && SlashFree(Kept(p)) && SlashFree(Real(Split(p, '/')))
  {
    var segs := Split(p, '/');
    forall i | 0 <= i < |segs| ensures '/' !in segs[i] { PiecesAreFree(p, '/', i); }
    ResolveFree(Rooted(p), [], segs);
    forall k | 0 <= k < |Real(segs)| ensures '/' !in Real(segs)[k] { RealMember(segs, k); }
  }

  // A step up undoes the step down before it, and leads nowhere from the root.
  lemma UpUndoesDown(rooted: bool, stack: seq<string>, seg: string)
    requires seg != "" && !Dots(seg)
    ensures Resolve(rooted, stack, [seg, ".."]) == stack
    ensures Resolve(true, [], [".."]) == [] && Resolve(false, [], [".."]) == [".."]
  {
    var down := stack + [seg];
    assert [seg, ".."][1..] == [".."] && [".."][1..] == [];
    assert Push(rooted, down, "..") == down[..|down| - 1] == stack;
    assert Resolve(rooted, stack, [seg, ".."]) == Resolve(rooted, down, [".."]);
  }
}
