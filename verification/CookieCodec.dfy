/**
  The chunked session cookie of session/cookie.go against a browser's jar, and
  the cookie-backed manager of session/manager.go on top of it.

  Cookie values are base64url text, so a character is a byte.
 */
module CookieCodec {
  import opened Wrappers
  import opened Http
  import opened Numerals

  const MAX_CHUNK := 3900

  function ChunkName(name: string, i: nat): string { name + "." + Itoa(i) }

  // How many chunks a value takes, rounding up.
  function ChunkCount(value: string): nat { (|value| + MAX_CHUNK - 1) / MAX_CHUNK }

  function Chunk(value: string, i: nat): string
    requires i < ChunkCount(value)
  {
    value[i * MAX_CHUNK..if (i + 1) * MAX_CHUNK < |value| then (i + 1) * MAX_CHUNK else |value|]
  }

  // Where the i-th chunk starts, at most the end.
  function From(value: string, i: nat): (n: nat)
    ensures n <= |value|
  {
    if i * MAX_CHUNK < |value| then i * MAX_CHUNK else |value|
  }

  // The cookies that carry `value`, one per chunk.
  function Written(name: string, value: string): seq<SetCookie> {
    seq(ChunkCount(value), i requires 0 <= i < ChunkCount(value) => SetCookie(ChunkName(name, i), Chunk(value, i), 0))
  }

  // The next slice of what is left is the next chunk.
  lemma NextSlice(value: string, i: nat)
    requires i <= ChunkCount(value) && From(value, i) < |value|
    ensures i < ChunkCount(value)
    ensures var rest := value[From(value, i)..];
            var n := if |rest| < MAX_CHUNK then |rest| else MAX_CHUNK;
      rest[..n] == Chunk(value, i) && rest[n..] == value[From(value, i + 1)..]
  {
  }

  lemma NothingLeft(value: string, i: nat)
    requires i <= ChunkCount(value) && From(value, i) == |value|
    ensures i == ChunkCount(value)
  {
  }

  lemma WrittenStep(name: string, value: string, i: nat)
    requires i < ChunkCount(value)
    ensures |Written(name, value)| == ChunkCount(value)
    ensures Written(name, value)[..i + 1] ==
      Written(name, value)[..i] + [SetCookie(ChunkName(name, i), Chunk(value, i), 0)]
  {
    hide Chunk, ChunkName;
  }

  lemma WrittenAll(name: string, value: string)
    ensures |Written(name, value)| == ChunkCount(value)
    ensures Written(name, value)[..0] == [] && Written(name, value)[..ChunkCount(value)] == Written(name, value)
  {
    hide Chunk, ChunkName;
  }

  lemma Appended(before: seq<SetCookie>, a: seq<SetCookie>, c: SetCookie)
    ensures (before + a) + [c] == before + (a + [c])
  {
  }

  method WriteChunkedCookie(w: ResponseWriter, name: string, value: string)
    modifies w`cookies
    ensures w.cookies == old(w.cookies) + Written(name, value)
  {
    hide Chunk, ChunkName, Written, ChunkCount, From;
    var rest, i := value, 0;
    ChunksEnd(value);
    WrittenAll(name, value);
    assert w.cookies + [] == w.cookies;
    while |rest| > 0
      invariant 0 <= i <= ChunkCount(value)
      invariant rest == value[From(value, i)..]
      invariant w.cookies == old(w.cookies) + Written(name, value)[..i]
      decreases |rest|
    {
      var n := if |rest| < MAX_CHUNK then |rest| else MAX_CHUNK;
      NextSlice(value, i);
      WrittenStep(name, value, i);
      Appended(old(w.cookies), Written(name, value)[..i], SetCookie(ChunkName(name, i), rest[..n], 0));
      w.AddCookie(SetCookie(ChunkName(name, i), rest[..n], 0));
      rest := rest[n..];
      i := i + 1;
    }
    NothingLeft(value, i);
  }

  // The index a cookie stands for under `prefix`, if any.
  function IndexOf(c: Cookie, prefix: string): Option<nat> {
    if !HasPrefix(c.name, prefix) then None
    else match Atoi(c.name[|prefix|..])
         case Some(v) => if v >= 0 then Some(v) else None
         case None => None
  }

  // Which names stand for an index: a sign or none, zeros or none and the numeral; minus for zero alone.
  lemma IndexReads(prefix: string, sign: string, k: nat, i: nat, v: string)
    requires Sign(sign) && i <= MAX_INT
    ensures IndexOf(Cookie(prefix + (sign + Zeros(k) + Itoa(i)), v), prefix) ==
      if sign == "-" && i > 0 then None else Some(i)
  {
    var tail := sign + Zeros(k) + Itoa(i);
    assert (prefix + tail)[|prefix|..] == tail;
    AtoiReads(sign, k, i);
  }

  lemma IndexOnlyReads(c: Cookie, prefix: string) returns (sign: string, k: nat)
    requires IndexOf(c, prefix).Some?
    ensures var i := IndexOf(c, prefix).value;
      && Sign(sign) && (sign == "-" ==> i == 0) && i <= MAX_INT
      && c.name == prefix + (sign + Zeros(k) + Itoa(i))
  {
    var tail := c.name[|prefix|..];
    assert c.name == prefix + tail;
    var n: nat;
    sign, k, n := AtoiOnlyReads(tail);
  }

  // The indexed values of a request; of two cookies with one index the later counts.
  function Parts(cs: seq<Cookie>, prefix: string): map<nat, string> {
    if cs == [] then map[]
    else
      var c := cs[|cs| - 1];
      var before := Parts(cs[..|cs| - 1], prefix);
      match IndexOf(c, prefix)
      case Some(i) => before[i := c.value]
      case None => before
  }

  // The contiguous run of parts from index n on.
  function Assemble(parts: map<nat, string>, n: nat): string
    decreases |set k | k in parts && k >= n|
  {
    if n !in parts then ""
    else
      assert (set k | k in parts && k >= n) == {n} + (set k | k in parts && k >= n + 1);
      parts[n] + Assemble(parts, n + 1)
  }

  function ReadBack(cs: seq<Cookie>, name: string): Option<string> {
    var parts := Parts(cs, name + ".");
    if 0 in parts then Some(Assemble(parts, 0)) else None
  }

  method ReadChunkedCookie(cs: seq<Cookie>, name: string) returns (r: Option<string>)
    ensures r == ReadBack(cs, name)
    ensures r.None? <==> forall j :: 0 <= j < |cs| ==> IndexOf(cs[j], name + ".") != Some(0)
  {
    var parts: map<nat, string> := map[];
    var prefix := name + ".";
    for k := 0 to |cs|
      invariant parts == Parts(cs[..k], prefix)
    {
      assert cs[..k + 1][..k] == cs[..k];
      if HasPrefix(cs[k].name, prefix) {
        var idx := Atoi(cs[k].name[|prefix|..]);
        if idx.Some? && idx.value >= 0 {
          parts := parts[idx.value := cs[k].value];
        }
      }
    }
    assert cs[..|cs|] == cs;
    var b, n := "", 0;
    while n in parts
      invariant b + Assemble(parts, n) == Assemble(parts, 0)
      invariant n > 0 ==> 0 in parts
      decreases |set k | k in parts && k >= n|
    {
      assert (set k | k in parts && k >= n) == {n} + (set k | k in parts && k >= n + 1);
      assert Assemble(parts, n) == parts[n] + Assemble(parts, n + 1);
      assert b + parts[n] + Assemble(parts, n + 1) == b + (parts[n] + Assemble(parts, n + 1));
      b := b + parts[n];
      n := n + 1;
    }
    assert b + Assemble(parts, n) == b;
    PartsOf(cs, prefix, 0);
    r := if n == 0 then None else Some(b);
  }

  // One expiration per cookie under the prefix, in request order.
  function Expirations(cs: seq<Cookie>, prefix: string): seq<SetCookie> {
    if cs == [] then []
    else
      var c := cs[|cs| - 1];
      Expirations(cs[..|cs| - 1], prefix) + if HasPrefix(c.name, prefix) then [SetCookie(c.name, "", -1)] else []
  }

  method ClearChunkedCookie(w: ResponseWriter, cs: seq<Cookie>, name: string)
    modifies w`cookies
    ensures w.cookies == old(w.cookies) + Expirations(cs, name + ".")
  {
    for k := 0 to |cs|
      invariant w.cookies == old(w.cookies) + Expirations(cs[..k], name + ".")
    {
      assert cs[..k + 1][..k] == cs[..k];
      if HasPrefix(cs[k].name, name + ".") {
        w.AddCookie(SetCookie(cs[k].name, "", -1));
      }
    }
    assert cs[..|cs|] == cs;
  }

  /* ---- clearing ---- */

  lemma {:induction false} ExpirationsNames(cs: seq<Cookie>, prefix: string)
    ensures forall i :: 0 <= i < |Expirations(cs, prefix)| ==> Expirations(cs, prefix)[i].maxAge < 0
    ensures (set i | 0 <= i < |Expirations(cs, prefix)| :: Expirations(cs, prefix)[i].name)
         == (set i | 0 <= i < |cs| && HasPrefix(cs[i].name, prefix) :: cs[i].name)
  {
    if cs != [] {
      var c, before := cs[|cs| - 1], cs[..|cs| - 1];
      ExpirationsNames(before, prefix);
      var old', new' := Expirations(before, prefix), Expirations(cs, prefix);
      var olds := set i | 0 <= i < |old'| :: old'[i].name;
      var news := set i | 0 <= i < |new'| :: new'[i].name;
      assert news == olds + (if HasPrefix(c.name, prefix) then {c.name} else {}) by {
        forall n | n in olds ensures n in news {
          var i :| 0 <= i < |old'| && old'[i].name == n;
          assert new'[i].name == n;
        }
        if HasPrefix(c.name, prefix) { assert new'[|old'|].name == c.name; }
      }
      var was := set i | 0 <= i < |before| && HasPrefix(before[i].name, prefix) :: before[i].name;
      var is' := set i | 0 <= i < |cs| && HasPrefix(cs[i].name, prefix) :: cs[i].name;
      forall n | n in was ensures n in is' {
        var i :| 0 <= i < |before| && HasPrefix(before[i].name, prefix) && before[i].name == n;
        assert cs[i].name == n;
      }
    }
  }

  // Clearing removes every name under the prefix, canonical or not, and nothing else.
  lemma ClearedJar(jar: Jar, cs: seq<Cookie>, prefix: string)
    requires Sends(jar, cs)
    ensures KeepAll(jar, Expirations(cs, prefix)) == map n | n in jar && !HasPrefix(n, prefix) :: jar[n]
  {
    ExpirationsNames(cs, prefix);
    KeepAllExpired(jar, Expirations(cs, prefix));
    var names := set i | 0 <= i < |cs| && HasPrefix(cs[i].name, prefix) :: cs[i].name;
    forall n | n in jar ensures n in names <==> HasPrefix(n, prefix) {
      var i :| 0 <= i < |cs| && cs[i].name == n;
    }
  }

  /* ---- writing ---- */

  lemma ChunkNameIndex(name: string, i: nat, v: string)
    requires i <= MAX_INT
    ensures HasPrefix(ChunkName(name, i), name + ".") && IndexOf(Cookie(ChunkName(name, i), v), name + ".") == Some(i)
  {
    var prefix := name + ".";
    assert ChunkName(name, i) == prefix + Itoa(i);
    assert ChunkName(name, i)[|prefix|..] == Itoa(i);
    AtoiRoundTrip(i);
  }

  lemma CountFits(value: string, i: nat)
    requires |value| <= MAX_INT && i <= ChunkCount(value)
    ensures i <= MAX_INT
  {
  }

  // The jar after the first n chunk cookies.
  lemma {:induction false} WrittenJar(jar: Jar, name: string, value: string, n: nat)
    requires |value| <= MAX_INT && n <= ChunkCount(value)
    ensures var jar' := KeepAll(jar, Written(name, value)[..n]);
      && (forall i: nat :: i < n ==> ChunkName(name, i) in jar' && jar'[ChunkName(name, i)] == Chunk(value, i))
      && (forall s :: s in jar' ==> s in jar || exists i: nat :: i < n && s == ChunkName(name, i))
  {
    if n > 0 {
      var cs := Written(name, value);
      assert cs[..n] == cs[..n - 1] + [cs[n - 1]];
      KeepAllConcat(jar, cs[..n - 1], [cs[n - 1]]);
      WrittenJar(jar, name, value, n - 1);
      var before := KeepAll(jar, cs[..n - 1]);
      assert KeepAll(before, [cs[n - 1]]) == Keep(before, cs[n - 1]);
      forall i: nat | i < n - 1 ensures ChunkName(name, i) != ChunkName(name, n - 1) {
        ChunkNameIndex(name, i, "");
        ChunkNameIndex(name, n - 1, "");
      }
    }
  }

  /* ---- reading ---- */

  // The request carries every chunk, and nothing else whose index is at most the count.
  ghost predicate Carries(cs: seq<Cookie>, name: string, value: string) {
    var prefix, k := name + ".", ChunkCount(value);
    && (forall i: nat :: i < k ==> Cookie(ChunkName(name, i), Chunk(value, i)) in cs)
    && (forall j :: 0 <= j < |cs| && IndexOf(cs[j], prefix).Some? && IndexOf(cs[j], prefix).value <= k ==>
          IndexOf(cs[j], prefix).value < k && cs[j].value == Chunk(value, IndexOf(cs[j], prefix).value))
  }

  lemma {:induction false} PartsOf(cs: seq<Cookie>, prefix: string, i: nat)
    ensures i in Parts(cs, prefix) ==>
      exists j :: 0 <= j < |cs| && IndexOf(cs[j], prefix) == Some(i) && cs[j].value == Parts(cs, prefix)[i]
    ensures (exists j :: 0 <= j < |cs| && IndexOf(cs[j], prefix) == Some(i)) ==> i in Parts(cs, prefix)
  {
    if cs != [] {
      var last := |cs| - 1;
      PartsOf(cs[..last], prefix, i);
      if i in Parts(cs, prefix) {
        if IndexOf(cs[last], prefix) == Some(i) {
          assert cs[last].value == Parts(cs, prefix)[i];
        } else {
          var j :| 0 <= j < last && IndexOf(cs[..last][j], prefix) == Some(i)
                   && cs[..last][j].value == Parts(cs[..last], prefix)[i];
          assert cs[j] == cs[..last][j];
        }
      }
      if j :| 0 <= j < last && IndexOf(cs[j], prefix) == Some(i) { assert cs[..last][j] == cs[j]; }
    }
  }

  // The parts of index up to the number of chunks are the chunks.
  ghost predicate Chunked(parts: map<nat, string>, value: string) {
    forall i: nat :: i <= ChunkCount(value) ==>
      (i in parts <==> i < ChunkCount(value)) && (i in parts ==> parts[i] == Chunk(value, i))
  }

  lemma CarriedParts(cs: seq<Cookie>, name: string, value: string)
    requires |value| <= MAX_INT && Carries(cs, name, value)
    ensures Chunked(Parts(cs, name + "."), value)
  {
    var parts := Parts(cs, name + ".");
    forall i: nat | i <= ChunkCount(value)
      ensures (i in parts <==> i < ChunkCount(value)) && (i in parts ==> parts[i] == Chunk(value, i))
    {
      CarriedPart(cs, name, value, i);
    }
  }

  lemma CarriedPart(cs: seq<Cookie>, name: string, value: string, i: nat)
    requires |value| <= MAX_INT && Carries(cs, name, value) && i <= ChunkCount(value)
    ensures var parts := Parts(cs, name + ".");
      (i in parts <==> i < ChunkCount(value)) && (i in parts ==> parts[i] == Chunk(value, i))
  {
    hide Parts, Chunk;
    PartsOf(cs, name + ".", i);
    if i < ChunkCount(value) {
      ChunkNameIndex(name, i, Chunk(value, i));
      var j :| 0 <= j < |cs| && cs[j] == Cookie(ChunkName(name, i), Chunk(value, i));
    }
  }

  lemma AssembleStep(parts: map<nat, string>, n: nat)
    ensures Assemble(parts, n) == if n in parts then parts[n] + Assemble(parts, n + 1) else ""
  {
  }

  lemma ChunksEnd(value: string)
    ensures From(value, ChunkCount(value)) == |value| && From(value, 0) == 0
    ensures value != "" ==> ChunkCount(value) > 0
  {
  }

  lemma ChunkSlice(value: string, k: nat)
    requires k < ChunkCount(value)
    ensures From(value, k) <= From(value, k + 1)
    ensures Chunk(value, k) == value[From(value, k)..From(value, k + 1)]
  {
  }

  lemma {:induction false} AssembledFrom(parts: map<nat, string>, value: string, i: nat)
    requires Chunked(parts, value) && i <= ChunkCount(value)
    ensures Assemble(parts, i) == value[From(value, i)..]
    decreases ChunkCount(value) - i
  {
    hide Chunk, From, Assemble;
    AssembleStep(parts, i);
    if i < ChunkCount(value) {
      AssembledFrom(parts, value, i + 1);
      ChunkSlice(value, i);
    } else {
      ChunksEnd(value);
    }
  }

  /**
    A request that carries the chunks reads back as the value, whatever other
    cookies it has: names outside the prefix, indices that do not parse, are
    negative, or exceed the number of chunks.
   */
  lemma StraysAreIgnored(cs: seq<Cookie>, name: string, value: string)
    requires value != "" && |value| <= MAX_INT && Carries(cs, name, value)
    ensures ReadBack(cs, name) == Some(value)
  {
    hide Carries, Parts, Assemble, Chunk, From, ChunkCount;
    CarriedParts(cs, name, value);
    AssembledFrom(Parts(cs, name + "."), value, 0);
    ChunksEnd(value);
  }

  /* ---- one stray cookie, wherever it stands ---- */

  predicate Occurs(cs: seq<Cookie>, prefix: string, k: nat) {
    exists j :: 0 <= j < |cs| && IndexOf(cs[j], prefix) == Some(k)
  }

  // A cookie counts unless a later one has its index.
  lemma {:induction false} PartsInsert(a: seq<Cookie>, c: Cookie, b: seq<Cookie>, prefix: string)
    ensures Parts(a + [c] + b, prefix) ==
      match IndexOf(c, prefix)
      case None => Parts(a + b, prefix)
      case Some(k) => if Occurs(b, prefix, k) then Parts(a + b, prefix) else Parts(a + b, prefix)[k := c.value]
    decreases |b|
  {
    hide IndexOf;
    var all := a + [c] + b;
    if b == [] {
      assert all[..|all| - 1] == a && all[|all| - 1] == c && a + b == a;
    } else {
      var front, last, rest := b[..|b| - 1], b[|b| - 1], a + b;
      assert all[..|all| - 1] == a + [c] + front && all[|all| - 1] == last;
      assert rest[..|rest| - 1] == a + front && rest[|rest| - 1] == last;
      PartsInsert(a, c, front, prefix);
      if IndexOf(c, prefix).Some? { OccursLast(front, last, b, prefix, IndexOf(c, prefix).value); }
    }
  }

  lemma OccursLast(front: seq<Cookie>, last: Cookie, b: seq<Cookie>, prefix: string, k: nat)
    requires b == front + [last]
    ensures Occurs(b, prefix, k) <==> Occurs(front, prefix, k) || IndexOf(last, prefix) == Some(k)
  {
    hide IndexOf;
    if j :| 0 <= j < |front| && IndexOf(front[j], prefix) == Some(k) { assert b[j] == front[j]; }
    assert b[|front|] == last;
  }

  lemma {:induction false} AssembleAbove(parts: map<nat, string>, k: nat, v: string, n: nat)
    requires n > k
    ensures Assemble(parts[k := v], n) == Assemble(parts, n)
    decreases |set j | j in parts && j >= n|
  {
    if n in parts {
      assert (set j | j in parts && j >= n) == {n} + (set j | j in parts && j >= n + 1);
      AssembleAbove(parts, k, v, n + 1);
    }
    AssembleStep(parts, n);
    AssembleStep(parts[k := v], n);
  }

  // What a part at the next index adds: itself and whatever follows it.
  lemma {:induction false} AppendedPart(parts: map<nat, string>, value: string, v: string, i: nat)
    requires Chunked(parts, value) && i <= ChunkCount(value)
    ensures Assemble(parts[ChunkCount(value) := v], i) ==
      value[From(value, i)..] + (v + Assemble(parts, ChunkCount(value) + 1))
    decreases ChunkCount(value) - i
  {
    hide Chunk, From, Assemble;
    AssembleStep(parts[ChunkCount(value) := v], i);
    if i < ChunkCount(value) {
      AppendedPart(parts, value, v, i + 1);
      ChunkSlice(value, i);
    } else {
      AssembleAbove(parts, i, v, i + 1);
      ChunksEnd(value);
    }
  }

  // What a part in the place of a chunk does.
  lemma {:induction false} ReplacedPart(parts: map<nat, string>, value: string, k: nat, v: string, i: nat)
    requires Chunked(parts, value) && i <= k < ChunkCount(value)
    ensures From(value, i) <= From(value, k)
    ensures Assemble(parts[k := v], i) == value[From(value, i)..From(value, k)] + v + value[From(value, k + 1)..]
    decreases k - i
  {
    hide Chunk, From, Assemble;
    AssembleStep(parts[k := v], i);
    if i < k {
      ReplacedPart(parts, value, k, v, i + 1);
      ChunkSlice(value, i);
    } else {
      AssembleAbove(parts, k, v, k + 1);
      AssembledFrom(parts, value, k + 1);
    }
  }

  // A stray at exactly the next index is taken as one more chunk, and brings in the parts after it.
  lemma NextIndexExtends(a: seq<Cookie>, stray: Cookie, b: seq<Cookie>, name: string, value: string)
    requires value != "" && |value| <= MAX_INT && Carries(a + b, name, value)
    requires IndexOf(stray, name + ".") == Some(ChunkCount(value))
    ensures ReadBack(a + [stray] + b, name) ==
      Some(value + (stray.value + Assemble(Parts(a + b, name + "."), ChunkCount(value) + 1)))
  {
    hide Parts, Assemble, Chunk, From, ChunkCount;
    var parts := Parts(a + b, name + ".");
    assert !Occurs(b, name + ".", ChunkCount(value)) by { NoNextIndex(a, b, name, value); }
    PartsInsert(a, stray, b, name + ".");
    CarriedParts(a + b, name, value);
    AppendedPart(parts, value, stray.value, 0);
    ChunksEnd(value);
  }

  lemma NoNextIndex(a: seq<Cookie>, b: seq<Cookie>, name: string, value: string)
    requires Carries(a + b, name, value)
    ensures !Occurs(b, name + ".", ChunkCount(value))
  {
    hide IndexOf, Chunk, ChunkCount;
    forall j | 0 <= j < |b| ensures IndexOf(b[j], name + ".") != Some(ChunkCount(value)) {
      assert (a + b)[|a| + j] == b[j];
    }
  }

  /**
    A request carries the chunks, anything outside them, and one more cookie
    under the prefix at any place.  The value reads back exactly when that cookie
    has no index, has one beyond the number of chunks, has a chunk's index and is
    followed by the chunk or repeats it, or stands at the next index and neither
    it nor the parts after it hold anything.
   */
  predicate Harmless(a: seq<Cookie>, stray: Cookie, b: seq<Cookie>, name: string, value: string) {
    match IndexOf(stray, name + ".")
    case None => true
    case Some(k) =>
      if k > ChunkCount(value) then true
      else if k < ChunkCount(value) then Occurs(b, name + ".", k) || stray.value == Chunk(value, k)
      else stray.value + Assemble(Parts(a + b, name + "."), k + 1) == ""
  }

  lemma StrayIsHarmlessIff(a: seq<Cookie>, stray: Cookie, b: seq<Cookie>, name: string, value: string)
    requires value != "" && |value| <= MAX_INT && Carries(a + b, name, value)
    ensures ReadBack(a + [stray] + b, name) == Some(value) <==> Harmless(a, stray, b, name, value)
  {
    hide Carries, IndexOf, Parts, Assemble, Chunk, From, ChunkCount;
    var prefix := name + ".";
    var index := IndexOf(stray, prefix);
    PartsInsert(a, stray, b, prefix);
    if index.None? || Occurs(b, prefix, index.value) {
      StraysAreIgnored(a + b, name, value);
      if index.Some? && index.value == ChunkCount(value) { NoNextIndex(a, b, name, value); }
    } else if index.value > ChunkCount(value) {
      BeyondIsIgnored(a, stray, b, name, value, index.value);
    } else if index.value == ChunkCount(value) {
      NextIndexExtends(a, stray, b, name, value);
      NothingAdded(value, stray.value + Assemble(Parts(a + b, prefix), index.value + 1));
    } else {
      ReplacedChunk(a, stray, b, name, value, index.value);
    }
  }

  lemma NothingAdded(value: string, more: string)
    ensures value + more == value <==> more == ""
  {
    assert |value + more| == |value| + |more|;
  }

  lemma BeyondIsIgnored(a: seq<Cookie>, stray: Cookie, b: seq<Cookie>, name: string, value: string, k: nat)
    requires value != "" && |value| <= MAX_INT && Carries(a + b, name, value)
    requires k > ChunkCount(value) && Parts(a + [stray] + b, name + ".") == Parts(a + b, name + ".")[k := stray.value]
    ensures ReadBack(a + [stray] + b, name) == Some(value)
  {
    hide Carries, Parts, Assemble, Chunk, From, ChunkCount;
    var parts := Parts(a + b, name + ".");
    CarriedParts(a + b, name, value);
    AssembledFrom(parts[k := stray.value], value, 0);
    ChunksEnd(value);
  }

  lemma ReplacedChunk(a: seq<Cookie>, stray: Cookie, b: seq<Cookie>, name: string, value: string, k: nat)
    requires value != "" && |value| <= MAX_INT && Carries(a + b, name, value) && k < ChunkCount(value)
    requires Parts(a + [stray] + b, name + ".") == Parts(a + b, name + ".")[k := stray.value]
    ensures ReadBack(a + [stray] + b, name) == Some(value) <==> stray.value == Chunk(value, k)
  {
    hide Carries, Assemble, Chunk, From, Parts, ChunkCount;
    CarriedParts(a + b, name, value);
    ReplacedPart(Parts(a + b, name + "."), value, k, stray.value, 0);
    ChunkSlice(value, k);
    ChunksEnd(value);
    var before, chunk, after := value[..From(value, k)], Chunk(value, k), value[From(value, k + 1)..];
    assert value == before + chunk + after;
    SameMiddle(before, stray.value, chunk, after);
  }

  lemma SameMiddle(a: string, x: string, y: string, b: string)
    ensures a + x + b == a + y + b <==> x == y
  {
    if a + x + b == a + y + b {
      assert |x| == |y|;
      assert x == (a + x + b)[|a|..|a| + |x|] == (a + y + b)[|a|..|a| + |y|] == y;
    }
  }

  /* ---- against the jar ---- */

  // The Set-Cookie list of cookieManager.Issue.
  function Issued(cs: seq<Cookie>, name: string, value: string): seq<SetCookie> {
    Expirations(cs, name + ".") + Written(name, value)
  }

  // What the jar holds under the prefix after Issue: the chunks and nothing else.
  lemma IssuedJar(jar: Jar, cs: seq<Cookie>, name: string, value: string)
    requires |value| <= MAX_INT && Sends(jar, cs)
    ensures var jar' := KeepAll(jar, Issued(cs, name, value));
      && (forall i: nat :: i < ChunkCount(value) ==>
        ChunkName(name, i) in jar' && jar'[ChunkName(name, i)] == Chunk(value, i))
      && (forall s :: s in jar' && HasPrefix(s, name + ".") ==>
        exists i: nat :: i < ChunkCount(value) && s == ChunkName(name, i))
  {
    hide Expirations, Written, Chunk, KeepAll, ChunkName, ChunkCount;
    var prefix, k := name + ".", ChunkCount(value);
    KeepAllConcat(jar, Expirations(cs, prefix), Written(name, value));
    ClearedJar(jar, cs, prefix);
    WrittenJar(KeepAll(jar, Expirations(cs, prefix)), name, value, k);
    WrittenAll(name, value);
  }

  /**
    For every jar that sends itself whole, before and after: issuing a non-empty
    value and reading returns exactly that value, whatever stale or oddly
    spelled chunks the jar held.
   */
  lemma ChunkedRoundTrip(jar: Jar, cs: seq<Cookie>, name: string, value: string, cs': seq<Cookie>)
    requires value != "" && |value| <= MAX_INT
    requires Sends(jar, cs) && Sends(KeepAll(jar, Issued(cs, name, value)), cs')
    ensures ReadBack(cs', name) == Some(value)
  {
    var prefix, k, jar' := name + ".", ChunkCount(value), KeepAll(jar, Issued(cs, name, value));
    IssuedJar(jar, cs, name, value);
    forall i: nat | i < k ensures Cookie(ChunkName(name, i), Chunk(value, i)) in cs' {
      var j :| 0 <= j < |cs'| && cs'[j].name == ChunkName(name, i);
      assert cs'[j] == Cookie(ChunkName(name, i), Chunk(value, i));
    }
    forall j | 0 <= j < |cs'| && IndexOf(cs'[j], prefix).Some?
      ensures IndexOf(cs'[j], prefix).value < k && cs'[j].value == Chunk(value, IndexOf(cs'[j], prefix).value)
    {
      var i: nat :| i < k && cs'[j].name == ChunkName(name, i);
      CountFits(value, i);
      ChunkNameIndex(name, i, cs'[j].value);
    }
    StraysAreIgnored(cs', name, value);
  }

  // ceil(len / 3900) chunks, each of 1 to 3900 bytes, that concatenate to the value.
  lemma ChunkSizes(name: string, value: string, i: nat)
    requires i < |Written(name, value)|
    ensures 0 < |Written(name, value)[i].value| <= 3900
    ensures (|Written(name, value)| - 1) * 3900 < |value| <= |Written(name, value)| * 3900
    ensures i < |Written(name, value)| - 1 ==> |Written(name, value)[i].value| == 3900
    ensures Written(name, value)[i].name == name + "." + Itoa(i) && Written(name, value)[i].maxAge == 0
  {
  }

  // After Clear there is no session to read.
  lemma ClearedIsGone(jar: Jar, cs: seq<Cookie>, name: string, cs': seq<Cookie>)
    requires Sends(jar, cs) && Sends(KeepAll(jar, Expirations(cs, name + ".")), cs')
    ensures ReadBack(cs', name) == None
  {
    ClearedJar(jar, cs, name + ".");
    PartsOf(cs', name + ".", 0);
  }
}
