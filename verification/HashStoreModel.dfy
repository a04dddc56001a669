/**
 The write-back buffer of template hashes.

 BufferHash and RemoveHash put updates in a map that a flush swaps out, writes cluster by cluster, and puts back
 where a write reported failure. Its logical content is what is pending, over what is in flight, over what is
 persisted; every interleaving keeps that content equal to the buffered operations applied in order.
 */
module HashStoreModel {
  import opened Wrappers
  import opened Names

  type Hashes = map<string, string>  // deployment key -> hash, "" for a removal
  type Buffer = map<string, Hashes>  // cluster -> hashes

  datatype Store = Store(
    pending: Buffer,
    inflight: Buffer,             // swapped out by the running flush and not settled yet
    crds: map<string, Hashes>)    // resource name -> persisted hashes

  datatype Op = Put(cluster: string, key: string, hash: string) | Remove(cluster: string, key: string)

  // A write whose caller is told it failed may or may not have been applied.
  datatype Outcome = GetFailed | Refused | LostReply | Acked

  datatype Action =
    | Do(op: Op)
    | Drain
    | Write(cluster: string, outcome: Outcome)
    | Requeue(cluster: string)

  // ---------- The logical content ----------

  predicate Has(b: Buffer, c: string, k: string) {
    c in b && k in b[c]
  }

  function Meaning(h: string): Option<string> {
    if h == "" then None else Some(h)
  }

  function Persisted(crds: map<string, Hashes>, c: string, k: string): Option<string> {
    var n := SanitizeName(c);
    if n in crds then Get(crds[n], k) else None
  }

  function View(s: Store, c: string, k: string): Option<string> {
    if Has(s.pending, c, k) then Meaning(s.pending[c][k])
    else if Has(s.inflight, c, k) then Meaning(s.inflight[c][k])
    else Persisted(s.crds, c, k)
  }

  /** The reference: one plain entry after the operations, in order. */
  function Replay(before: Option<string>, ops: seq<Op>, c: string, k: string): Option<string> {
    if ops == [] then before
    else
      var op := ops[|ops| - 1];
      if op.cluster != c || op.key != k then Replay(before, ops[..|ops| - 1], c, k)
      else if op.Put? then Some(op.hash)
      else None
  }

  // ---------- The steps ----------

  function Buffered(b: Buffer, c: string, k: string, h: string): Buffer {
    b[c := (if c in b then b[c] else map[])[k := h]]
  }

  function Encoded(op: Op): string {
    if op.Put? then op.hash else ""
  }

  /** A persisted map with updates applied: an empty value removes its key. */
  function Merged(m: Hashes, updates: Hashes): Hashes {
    m + updates - set k | k in updates && updates[k] == ""
  }

  function Upserted(crds: map<string, Hashes>, c: string, updates: Hashes): map<string, Hashes> {
    var n := SanitizeName(c);
    crds[n := Merged(if n in crds then crds[n] else map[], updates)]
  }

  /** Failed updates go back to the buffer, behind what was buffered since. */
  function Requeued(b: Buffer, c: string, updates: Hashes): Buffer {
    if updates == map[] then b else b[c := updates + (if c in b then b[c] else map[])]
  }

  function Applied(outcome: Outcome): bool {
    outcome == LostReply || outcome == Acked
  }

  predicate Enabled(s: Store, a: Action) {
    match a
    case Do(_) => true
    case Drain => s.inflight == map[]
    case Write(c, _) => c in s.inflight
    case Requeue(c) => c in s.inflight
  }

  function Step(s: Store, a: Action): Store {
    if !Enabled(s, a) then s
    else
      match a
      case Do(op) => s.(pending := Buffered(s.pending, op.cluster, op.key, Encoded(op)))
      case Drain => s.(pending := map[], inflight := s.pending)
      case Write(c, outcome) =>
        var s' := if Applied(outcome) then s.(crds := Upserted(s.crds, c, s.inflight[c])) else s;
        if outcome == Acked then s'.(inflight := s'.inflight - {c}) else s'
      case Requeue(c) =>
        s.(pending := Requeued(s.pending, c, s.inflight[c]), inflight := s.inflight - {c})
  }

  function Exec(s: Store, acts: seq<Action>): Store
    decreases |acts|
  {
    if acts == [] then s else Step(Exec(s, acts[..|acts| - 1]), acts[|acts| - 1])
  }

  function OpsOf(acts: seq<Action>): seq<Op>
    decreases |acts|
  {
    if acts == [] then []
    else
      var rest := OpsOf(acts[..|acts| - 1]);
      var a := acts[|acts| - 1];
      if a.Do? then rest + [a.op] else rest
  }

  // ---------- Refinement ----------

  /** No two of the clusters in use share a resource name. */
  ghost predicate NamesApart(used: set<string>) {
    forall c, d | c in used && d in used && SanitizeName(c) == SanitizeName(d) :: c == d
  }

  ghost predicate Within(s: Store, used: set<string>) {
    s.pending.Keys <= used && s.inflight.Keys <= used
  }

  predicate UsesOnly(a: Action, used: set<string>) {
    a.Do? ==> a.op.cluster in used && (a.op.Put? ==> a.op.hash != "")
  }

  /** Buffering changes one entry of the logical content; nothing a flush does changes any. */
  lemma StepRefines(s: Store, a: Action, used: set<string>, c: string, k: string)
    requires NamesApart(used) && Within(s, used) && UsesOnly(a, used) && c in used
    ensures Within(Step(s, a), used)
    ensures View(Step(s, a), c, k) == Replay(View(s, c, k), if a.Do? then [a.op] else [], c, k)
  {
    if Enabled(s, a) {
      match a {
        case Do(op) => assert [op][..0] == [];
        case Drain =>
        case Write(d, outcome) => WriteKeepsView(s, d, outcome, used, c, k);
        case Requeue(d) =>
      }
    }
  }

  lemma WriteKeepsView(s: Store, d: string, outcome: Outcome, used: set<string>, c: string, k: string)
    requires NamesApart(used) && Within(s, used) && c in used && d in s.inflight
    ensures View(Step(s, Write(d, outcome)), c, k) == View(s, c, k)
  {
    assert d in used;
    if c != d {
      assert SanitizeName(c) != SanitizeName(d);
    }
  }

  /** Every interleaving of buffered operations and flush steps refines one plain map. */
  lemma {:induction false} ExecRefines(s: Store, acts: seq<Action>, used: set<string>, c: string, k: string)
    requires NamesApart(used) && Within(s, used) && c in used
    requires forall a | a in acts :: UsesOnly(a, used)
    ensures Within(Exec(s, acts), used)
    ensures View(Exec(s, acts), c, k) == Replay(View(s, c, k), OpsOf(acts), c, k)
    decreases |acts|
  {
    if acts != [] {
      var n := |acts| - 1;
      var init, a := acts[..n], acts[n];
      ExecRefines(s, init, used, c, k);
      StepRefines(Exec(s, init), a, used, c, k);
      if a.Do? {
        assert (OpsOf(init) + [a.op])[..|OpsOf(init)|] == OpsOf(init);
        assert [a.op][..0] == [];
      }
    }
  }

  /** The clusters in use have different resource names exactly when no two different ones collide as CollideIff has
      it; clusters whose names sanitizing leaves alone never do. */
  lemma NamesApartIff(used: set<string>)
    ensures NamesApart(used) <==>
            forall c, d | c in used && d in used && c != d ::
              !(CutLength(Core(c)) == CutLength(Core(d)) && SameSoFar(Core(c), Core(d), CutLength(Core(c))))
    ensures (forall c | c in used :: |c| <= MAX_NAME && AllNormal(c) && NoLeading(c) && NoTrailing(c)) ==> NamesApart(used)
  {
    forall c, d | c in used && d in used
      ensures SanitizeName(c) == SanitizeName(d) <==>
              CutLength(Core(c)) == CutLength(Core(d)) && SameSoFar(Core(c), Core(d), CutLength(Core(c)))
    {
      CollideIff(c, d);
    }
    forall c | c in used ensures SanitizeName(c) == c <==> |c| <= MAX_NAME && AllNormal(c) && NoLeading(c) && NoTrailing(c) {
      FixedIff(c);
    }
  }

  /** The refinement for clusters named as Kubernetes wants it, with nothing else assumed about the names. */
  lemma FixedNamesRefine(s: Store, acts: seq<Action>, used: set<string>, c: string, k: string)
    requires forall d | d in used :: |d| <= MAX_NAME && AllNormal(d) && NoLeading(d) && NoTrailing(d)
    requires Within(s, used) && c in used && forall a | a in acts :: UsesOnly(a, used)
    ensures View(Exec(s, acts), c, k) == Replay(View(s, c, k), OpsOf(acts), c, k)
  {
    NamesApartIff(used);
    ExecRefines(s, acts, used, c, k);
  }

  /** With nothing pending or in flight, what is persisted is the logical content. */
  lemma SettledIsPersisted(s: Store, c: string, k: string)
    requires s.pending == map[] && s.inflight == map[]
    ensures View(s, c, k) == Persisted(s.crds, c, k)
  {
  }

  /** For one cluster pair, persisted contents stay apart exactly when their resource names differ: a write for
      one is read back for the other as soon as they share a name. */
  lemma NamesApartNeeded(s: Store, c: string, d: string, k: string, h: string)
    requires c != d && h != "" && s.pending == map[] && s.inflight == map[]
    requires Persisted(s.crds, d, k) != Some(h)
    ensures View(Exec(s, [Do(Put(c, k, h)), Drain, Write(c, Acked)]), d, k) == View(s, d, k)
            <==> SanitizeName(c) != SanitizeName(d)
  {
    var a1, a2, a3 := Do(Put(c, k, h)), Drain, Write(c, Acked);
    var s1 := Step(s, a1);
    var s2 := Step(s1, a2);
    var s3 := Step(s2, a3);
    ExecThree(s, a1, a2, a3);
    assert s3.inflight == map[] && s3.pending == map[];
  }

  lemma ExecThree(s: Store, a: Action, b: Action, c: Action)
    ensures Exec(s, [a, b, c]) == Step(Step(Step(s, a), b), c)
  {
    assert [a, b, c][..2] == [a, b] && [a, b][..1] == [a] && [a][..0] == [];
    assert Exec(s, [a, b]) == Step(Exec(s, [a]), b);
    assert Exec(s, [a]) == Step(Exec(s, []), a);
  }

  // ---------- Composing interleavings ----------

  lemma {:induction false} ExecAppend(s: Store, a: seq<Action>, b: seq<Action>)
    ensures Exec(s, a + b) == Exec(Exec(s, a), b) && OpsOf(a + b) == OpsOf(a) + OpsOf(b)
    decreases |b|
  {
    if b == [] {
      assert a + b == a;
    } else {
      var n := |b| - 1;
      assert (a + b)[..|a + b| - 1] == a + b[..n] && (a + b)[|a + b| - 1] == b[n];
      ExecAppend(s, a, b[..n]);
    }
  }

  /** Some interleaving that contains exactly these operations, in this order, leads from s to s'. */
  ghost predicate Leads(s: Store, ops: seq<Op>, s': Store) {
    exists acts :: s' == Exec(s, acts) && OpsOf(acts) == ops
  }

  lemma StepLeads(s: Store, ops: seq<Op>, s': Store, a: Action)
    requires Leads(s, ops, s')
    ensures Leads(s, if a.Do? then ops + [a.op] else ops, Step(s', a))
  {
    var acts :| s' == Exec(s, acts) && OpsOf(acts) == ops;
    assert (acts + [a])[..|acts|] == acts;
    assert Exec(s, acts + [a]) == Step(s', a);
  }

  lemma LeadsRefines(s: Store, ops: seq<Op>, s': Store, used: set<string>, c: string, k: string)
    requires Leads(s, ops, s') && NamesApart(used) && Within(s, used) && c in used
    requires forall op | op in ops :: op.cluster in used && (op.Put? ==> op.hash != "")
    ensures View(s', c, k) == Replay(View(s, c, k), ops, c, k)
  {
    var acts :| s' == Exec(s, acts) && OpsOf(acts) == ops;
    OpsAreDone(acts);
    ExecRefines(s, acts, used, c, k);
  }

  /** All that was logically there is persisted. */
  ghost predicate Persists(s: Store, s': Store) {
    forall used, c, k | NamesApart(used) && Within(s, used) && c in used :: Persisted(s'.crds, c, k) == View(s, c, k)
  }

  /** A flush that leaves nothing pending, with no operation beside it, has persisted the logical content. */
  lemma FlushPersists(s: Store, s': Store)
    requires Leads(s, [], s') && s'.pending == map[] && s'.inflight == map[]
    ensures Persists(s, s')
  {
    forall used, c, k | NamesApart(used) && Within(s, used) && c in used
      ensures Persisted(s'.crds, c, k) == View(s, c, k)
    {
      LeadsRefines(s, [], s', used, c, k);
      SettledIsPersisted(s', c, k);
    }
  }

  lemma {:induction false} OpsAreDone(acts: seq<Action>)
    ensures forall a | a in acts && a.Do? :: a.op in OpsOf(acts)
    decreases |acts|
  {
    if acts != [] {
      OpsAreDone(acts[..|acts| - 1]);
    }
  }
}
