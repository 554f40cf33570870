/** The incremental watermark of packages/sync/src/runner.ts: a full run over a store that keeps changing,
    crashed and resumed at any point, and the incremental run after it, which asks for what changed since
    the full run's start, less a minute. A resume overwrites that start. */
module SyncWatermark {
  import opened Wrappers
  import opened SyncWriters
  import Replay = SyncReplay

  const WATERMARK_MARGIN_MS := 60_000

  /** A product as Shopify serves it from this instant until its next change. */
  datatype Change = Change(at: int, payload: ProductPayload)

  /** Changes come in the order of their stamps, a product's own stamps differ, every product has
      a variant, and no variant is ever listed by two products. */
  ghost predicate Upstream(changes: seq<Change>) {
    && (forall i, j :: 0 <= i < j < |changes| ==> InOrder(changes[i], changes[j]))
    && (forall i :: 0 <= i < |changes| ==> Stamped(changes[i]))
    && forall i, j :: 0 <= i < |changes| && 0 <= j < |changes| ==> Apart(changes[i].payload, changes[j].payload)
  }

  predicate InOrder(c: Change, d: Change) {
    c.at <= d.at && (c.payload.id == d.payload.id ==> c.at < d.at)
  }

  predicate Stamped(c: Change) {
    c.payload.fields.updatedAt == Some(c.at) && c.payload.variants != []
  }

  ghost predicate Apart(p: ProductPayload, q: ProductPayload) {
    p.id != q.id ==> forall v :: Lists(p.variants, v) ==> !Lists(q.variants, v)
  }

  function PayloadAt(changes: seq<Change>, id: string, t: int): Option<ProductPayload> {
    if changes == [] then None
    else
      var last := changes[|changes| - 1];
      if last.payload.id == id && last.at <= t then Some(last.payload) else PayloadAt(changes[..|changes| - 1], id, t)
  }

  /** The stamp of the product's last change by then. */
  function ChangedAt(changes: seq<Change>, id: string, t: int): Option<int> {
    var p := PayloadAt(changes, id, t);
    if p.Some? then p.value.fields.updatedAt else None
  }

  /** What a request at instant t answers for these products, if it asks for changes from `since` on. */
  function Answer(changes: seq<Change>, ids: seq<string>, t: int, since: Option<int>): seq<ProductPayload> {
    if ids == [] then []
    else
      var p := PayloadAt(changes, ids[|ids| - 1], t);
      Answer(changes, ids[..|ids| - 1], t, since)
      + if p.Some? && (since.None? || Since(p.value, since.value)) then [p.value] else []
  }

  predicate Since(p: ProductPayload, since: int) {
    p.fields.updatedAt.Some? && since <= p.fields.updatedAt.value
  }

  function AllIds(pages: seq<seq<string>>): seq<string> {
    if pages == [] then [] else AllIds(pages[..|pages| - 1]) + pages[|pages| - 1]
  }

  /** written lists every payload applied so far, and fetchedAt when each product was last asked for. */
  datatype Sync = Sync(
    now: int, startedAt: int, cursor: nat, running: bool, completed: bool,
    replica: Replica, written: seq<ProductPayload>, fetchedAt: map<string, int>, attempts: nat)

  datatype Step =
    | Begin(at: int)              // a new run, or a resumed one whose row gets a new start
    | PageDone(at: int)           // a page is fetched and written, and its checkpoint saved
    | CrashBeforeSave(at: int)    // ... the checkpoint is not saved
    | CrashBeforeFinish(at: int)  // the last checkpoint, which clears the cursor, is saved and nothing after it
    | Crash(at: int)              // between two pages

  function WritePage(s: Sync, changes: seq<Change>, ids: seq<string>, at: int): Sync {
    var page := Answer(changes, ids, at, None);
    s.(now := at, replica := UpsertAll(s.replica, page), written := s.written + page,
       fetchedAt := s.fetchedAt + map id | id in ids :: at)
  }

  function Take(s: Sync, changes: seq<Change>, pages: seq<seq<string>>, step: Step): Sync {
    if step.at < s.now || s.completed then s
    else if step.Begin? then
      if s.running then s
      else s.(now := step.at, startedAt := step.at, running := true, attempts := s.attempts + 1)
    else if !s.running || s.cursor >= |pages| then s
    else if step.Crash? then s.(now := step.at, running := false)
    else
      var t := WritePage(s, changes, pages[s.cursor], step.at);
      var last := s.cursor == |pages| - 1;
      match step
      case PageDone(_) => if last
        then t.(cursor := 0, running := false, completed := true) else t.(cursor := s.cursor + 1)
      case CrashBeforeFinish(_) => if last then t.(cursor := 0, running := false) else s
      case _ => t.(running := false)
  }

  function Run(r: Replica, from: int, changes: seq<Change>, pages: seq<seq<string>>, steps: seq<Step>): Sync {
    if steps == [] then Sync(from, from, 0, false, false, r, [], map[], 0)
    else Take(Run(r, from, changes, pages, steps[..|steps| - 1]), changes, pages, steps[|steps| - 1])
  }

  function Watermark(s: Sync): int {
    s.startedAt - WATERMARK_MARGIN_MS
  }

  /** The replica after the next incremental run, whose requests are answered at instant t. */
  function Incremental(s: Sync, changes: seq<Change>, pages: seq<seq<string>>, t: int): Replica {
    UpsertAll(s.replica, Answer(changes, AllIds(pages), t, Some(Watermark(s))))
  }

  /** What a full sync of an empty store at that instant would leave. */
  function Faithful(changes: seq<Change>, pages: seq<seq<string>>, t: int): Replica {
    UpsertAll(Replica(map[], map[]), Answer(changes, AllIds(pages), t, None))
  }

  // The rows left by earlier runs belong to products that are still served.
  ghost predicate Known(r: Replica, changes: seq<Change>, pages: seq<seq<string>>, from: int) {
    && (forall id :: id in r.products ==> id in AllIds(pages) && PayloadAt(changes, id, from).Some?)
    && (forall v :: v in r.variants ==>
        r.variants[v].product in AllIds(pages) && PayloadAt(changes, r.variants[v].product, from).Some?)
  }

  // ---- upstream ----

  // The payload served is one of the changes made by then.
  ghost predicate Served(changes: seq<Change>, p: ProductPayload, t: int) {
    exists i :: 0 <= i < |changes| && changes[i].payload == p && changes[i].at <= t
  }

  lemma {:induction false} PayloadFrom(changes: seq<Change>, id: string, t: int)
    ensures PayloadAt(changes, id, t).Some? ==>
              PayloadAt(changes, id, t).value.id == id && Served(changes, PayloadAt(changes, id, t).value, t)
  {
    if changes != [] {
      var n := |changes| - 1;
      PayloadFrom(changes[..n], id, t);
      if PayloadAt(changes, id, t).Some? && !(changes[n].payload.id == id && changes[n].at <= t) {
        var i :| 0 <= i < n && changes[..n][i].payload == PayloadAt(changes, id, t).value && changes[..n][i].at <= t;
        assert changes[i] == changes[..n][i];
      }
    }
  }

  /** A later look shows the same payload exactly when there was no change in between. */
  lemma {:induction false} SamePayload(changes: seq<Change>, id: string, f: int, t: int)
    requires Upstream(changes) && f <= t
    ensures PayloadAt(changes, id, f).Some? ==> PayloadAt(changes, id, t).Some?
    ensures ChangedAt(changes, id, t).Some? <==> PayloadAt(changes, id, t).Some?
    ensures ChangedAt(changes, id, t).Some? ==> ChangedAt(changes, id, t).value <= t
    ensures PayloadAt(changes, id, f) == PayloadAt(changes, id, t) <==>
            ChangedAt(changes, id, t).None? || ChangedAt(changes, id, t).value <= f
    ensures ChangedAt(changes, id, f) == ChangedAt(changes, id, t) <==>
            PayloadAt(changes, id, f) == PayloadAt(changes, id, t)
  {
    if changes != [] {
      var n := |changes| - 1;
      SamePayload(changes[..n], id, f, t);
      PayloadFrom(changes[..n], id, f);
      hide Apart;
      if i :| ChangedAt(changes[..n], id, f).Some? && 0 <= i < n
              && changes[..n][i].payload == PayloadAt(changes[..n], id, f).value && changes[..n][i].at <= f {
        assert InOrder(changes[i], changes[n]) && Stamped(changes[i]) && Stamped(changes[n]);
      }
    }
  }

  // ---- what a stream of payloads says last about a product ----

  function LastOf(ps: seq<ProductPayload>, id: string): Option<ProductPayload> {
    if ps == [] then None
    else if ps[|ps| - 1].id == id then Some(ps[|ps| - 1])
    else LastOf(ps[..|ps| - 1], id)
  }

  lemma {:induction false} LastOfConcat(a: seq<ProductPayload>, b: seq<ProductPayload>, id: string)
    ensures LastOf(a + b, id) == if LastOf(b, id).Some? then LastOf(b, id) else LastOf(a, id)
  {
    if b == [] {
      assert a + b == a;
    } else {
      var n := |b| - 1;
      assert (a + b)[..|a| + n] == a + b[..n];
      LastOfConcat(a, b[..n], id);
    }
  }

  lemma {:induction false} LastOfAnswer(changes: seq<Change>, ids: seq<string>, t: int, since: Option<int>, id: string)
    ensures LastOf(Answer(changes, ids, t, since), id) ==
            var p := PayloadAt(changes, id, t);
            if id in ids && p.Some? && (since.None? || Since(p.value, since.value)) then p else None
  {
    if ids != [] {
      var n := |ids| - 1;
      LastOfAnswer(changes, ids[..n], t, since, id);
      PayloadFrom(changes, ids[n], t);
      assert ids == ids[..n] + [ids[n]];
      var last := PayloadAt(changes, ids[n], t);
      var tail := if last.Some? && (since.None? || Since(last.value, since.value)) then [last.value] else [];
      LastOfConcat(Answer(changes, ids[..n], t, since), tail, id);
      assert LastOf(tail, id) == if tail != [] && ids[n] == id then last else None;
    }
  }

  /** Every payload of the stream has variants, and no variant is listed by two products. */
  ghost predicate Tidy(ps: seq<ProductPayload>) {
    (forall i :: 0 <= i < |ps| ==> ps[i].variants != [])
    && forall i, j :: 0 <= i < |ps| && 0 <= j < |ps| ==> Apart(ps[i], ps[j])
  }

  lemma {:induction false} ProductFateIs(ps: seq<ProductPayload>, id: string)
    ensures Replay.ProductFate(ps, id) == if LastOf(ps, id).Some? then Some(LastOf(ps, id).value.fields) else None
    ensures LastOf(ps, id).Some? ==> LastOf(ps, id).value.id == id && LastOf(ps, id).value in ps
  {
    if ps != [] {
      ProductFateIs(ps[..|ps| - 1], id);
    }
  }

  // The owner's last payload decides a variant.
  lemma {:induction false} OwnedFate(ps: seq<ProductPayload>, v: string, owner: string)
    requires forall i :: 0 <= i < |ps| ==> ps[i].variants != [] && (Lists(ps[i].variants, v) ==> ps[i].id == owner)
    ensures match LastOf(ps, owner)
            case None => Replay.FateOf(ps, v) == Replay.Untouched
            case Some(p) =>
              if Lists(p.variants, v) then Replay.FateOf(ps, v) == Replay.Kept(Replay.LastListed(owner, p.variants, v))
              else !Replay.FateOf(ps, v).Kept?
    ensures Replay.FateOf(ps, v).Kept? ==> Replay.FateOf(ps, v).row.product == owner
  {
    hide Lists;
    if ps != [] {
      var n := |ps| - 1;
      OwnedFate(ps[..n], v, owner);
      if Lists(ps[n].variants, v) {
        Replay.ListedOwner(owner, ps[n].variants, v);
      }
    }
  }

  lemma {:induction false} ClaimsIff(ps: seq<ProductPayload>, id: string)
    requires Tidy(ps)
    ensures Replay.Claims(ps, id) <==> LastOf(ps, id).Some?
  {
    hide Apart;
    if ps != [] {
      Replay.ClaimsNext(ps, id);
      ClaimsIff(ps[..|ps| - 1], id);
    }
  }

  // Two streams that say the same last about every product leave the same rows, if they claim what was there.
  lemma SameLastSameReplica(r: Replica, ps: seq<ProductPayload>, qs: seq<ProductPayload>)
    requires Tidy(ps + qs) && forall id :: LastOf(ps, id) == LastOf(qs, id)
    requires forall id :: id in r.products ==> LastOf(ps, id).Some?
    requires forall v :: v in r.variants ==> LastOf(ps, r.variants[v].product).Some?
    ensures UpsertAll(r, ps) == UpsertAll(Replica(map[], map[]), qs)
  {
    var empty := Replica(map[], map[]);
    var a, b := UpsertAll(r, ps), UpsertAll(empty, qs);
    hide UpsertAll;
    forall id
      ensures Replay.Get(a.products, id) == Replay.Get(b.products, id)
    {
      Replay.ProductAfter(r, ps, id);
      Replay.ProductAfter(empty, qs, id);
      ProductFateIs(ps, id);
      ProductFateIs(qs, id);
    }
    Replay.SameMap(a.products, b.products);
    forall v
      ensures Replay.Get(a.variants, v) == Replay.Get(b.variants, v)
    {
      SameVariant(r, ps, qs, v);
    }
    Replay.SameMap(a.variants, b.variants);
  }

  lemma SameVariant(r: Replica, ps: seq<ProductPayload>, qs: seq<ProductPayload>, v: string)
    requires Tidy(ps + qs) && forall id :: LastOf(ps, id) == LastOf(qs, id)
    requires forall v :: v in r.variants ==> LastOf(ps, r.variants[v].product).Some?
    ensures Replay.Get(UpsertAll(r, ps).variants, v) == Replay.Get(UpsertAll(Replica(map[], map[]), qs).variants, v)
  {
    Replay.VariantAfter(r, ps, v);
    Replay.VariantAfter(Replica(map[], map[]), qs, v);
    TidyParts(ps, qs);
    if v in r.variants {
      ClaimsIff(ps, r.variants[v].product);
    }
    var owner := OwnerOf(ps + qs, v);
    forall i | 0 <= i < |ps|
      ensures ps[i].variants != [] && (Lists(ps[i].variants, v) ==> ps[i].id == owner)
    {
      assert (ps + qs)[i] == ps[i];
    }
    forall i | 0 <= i < |qs|
      ensures qs[i].variants != [] && (Lists(qs[i].variants, v) ==> qs[i].id == owner)
    {
      assert (ps + qs)[|ps| + i] == qs[i];
    }
    hide Tidy, UpsertAll, Replay.Claims;
    OwnedFate(ps, v, owner);
    OwnedFate(qs, v, owner);
  }

  lemma TidyParts(ps: seq<ProductPayload>, qs: seq<ProductPayload>)
    requires Tidy(ps + qs)
    ensures Tidy(ps) && Tidy(qs)
  {
    assert ps == (ps + qs)[..|ps|] && qs == (ps + qs)[|ps|..];
  }

  lemma OwnerOf(ps: seq<ProductPayload>, v: string) returns (owner: string)
    requires Tidy(ps)
    ensures forall i :: 0 <= i < |ps| && Lists(ps[i].variants, v) ==> ps[i].id == owner
  {
    if i :| 0 <= i < |ps| && Lists(ps[i].variants, v) {
      owner := ps[i].id;
      forall j | 0 <= j < |ps| && Lists(ps[j].variants, v)
        ensures ps[j].id == owner
      {
        assert Apart(ps[i], ps[j]);
      }
    } else {
      owner := "";
    }
  }

  // ---- every run ----

  ghost predicate FromUpstream(changes: seq<Change>, ps: seq<ProductPayload>) {
    forall k :: 0 <= k < |ps| ==> Made(changes, ps[k])
  }

  ghost predicate Made(changes: seq<Change>, p: ProductPayload) {
    exists i :: 0 <= i < |changes| && changes[i].payload == p
  }

  lemma {:induction false} AnswerFromUpstream(changes: seq<Change>, ids: seq<string>, t: int, since: Option<int>)
    ensures FromUpstream(changes, Answer(changes, ids, t, since))
  {
    if ids != [] {
      AnswerFromUpstream(changes, ids[..|ids| - 1], t, since);
      PayloadFrom(changes, ids[|ids| - 1], t);
      var p := PayloadAt(changes, ids[|ids| - 1], t);
      assert p.Some? ==> Made(changes, p.value);
    }
  }

  lemma UpstreamIsTidy(changes: seq<Change>, ps: seq<ProductPayload>)
    requires Upstream(changes) && FromUpstream(changes, ps)
    ensures Tidy(ps)
  {
    hide Apart;
    forall k | 0 <= k < |ps|
      ensures ps[k].variants != []
    {
      assert Made(changes, ps[k]);
      var i :| 0 <= i < |changes| && changes[i].payload == ps[k];
      assert Stamped(changes[i]);
    }
    forall k, m | 0 <= k < |ps| && 0 <= m < |ps|
      ensures Apart(ps[k], ps[m])
    {
      assert Made(changes, ps[k]) && Made(changes, ps[m]);
      var i :| 0 <= i < |changes| && changes[i].payload == ps[k];
      var j :| 0 <= j < |changes| && changes[j].payload == ps[m];
      assert Apart(changes[i].payload, changes[j].payload);
    }
  }

  function SeenAt(s: Sync, changes: seq<Change>, id: string): Option<ProductPayload> {
    if id in s.fetchedAt then PayloadAt(changes, id, s.fetchedAt[id]) else None
  }

  // What has been written is what was served when each product was last asked for.
  ghost predicate Recorded(s: Sync, r: Replica, changes: seq<Change>) {
    && s.replica == UpsertAll(r, s.written) && FromUpstream(changes, s.written)
    && forall id :: LastOf(s.written, id) == SeenAt(s, changes, id)
  }

  ghost predicate Timed(s: Sync, from: int) {
    && from <= s.startedAt <= s.now && (s.attempts == 0 ==> s.fetchedAt == map[] && !s.running)
    && (forall id :: id in s.fetchedAt ==> from <= s.fetchedAt[id] <= s.now)
    && (s.attempts == 1 ==> forall id :: id in s.fetchedAt ==> s.startedAt <= s.fetchedAt[id])
  }

  ghost predicate Covered(s: Sync, pages: seq<seq<string>>) {
    && s.cursor <= |pages|
    && (forall id :: id in s.fetchedAt ==> id in AllIds(pages))
    && (forall id :: id in AllIds(if s.completed then pages else pages[..s.cursor]) ==> id in s.fetchedAt)
  }

  lemma {:induction false} PageInAll(pages: seq<seq<string>>, c: nat)
    requires c < |pages|
    ensures forall id :: id in pages[c] ==> id in AllIds(pages)
  {
    var n := |pages| - 1;
    if c < n {
      PageInAll(pages[..n], c);
      assert pages[..n][c] == pages[c];
    }
  }

  lemma WriteRecorded(s: Sync, r: Replica, changes: seq<Change>, ids: seq<string>, at: int)
    requires Upstream(changes) && Recorded(s, r, changes)
    requires forall id :: id in s.fetchedAt ==> s.fetchedAt[id] <= at
    ensures Recorded(WritePage(s, changes, ids, at), r, changes)
  {
    var t, page := WritePage(s, changes, ids, at), Answer(changes, ids, at, None);
    Replay.UpsertConcat(r, s.written, page);
    AnswerFromUpstream(changes, ids, at, None);
    hide UpsertAll, InOrder, Stamped, Apart, Made;
    forall id
      ensures LastOf(t.written, id) == SeenAt(t, changes, id)
    {
      LastOfConcat(s.written, page, id);
      LastOfAnswer(changes, ids, at, None, id);
      if id in s.fetchedAt {
        SamePayload(changes, id, s.fetchedAt[id], at);
      }
    }
  }

  lemma TakeRecorded(s: Sync, r: Replica, from: int, changes: seq<Change>, pages: seq<seq<string>>, step: Step)
    requires Upstream(changes) && Recorded(s, r, changes) && Timed(s, from)
    ensures Recorded(Take(s, changes, pages, step), r, changes)
  {
    if step.at >= s.now && s.cursor < |pages| {
      WriteRecorded(s, r, changes, pages[s.cursor], step.at);
    }
    hide UpsertAll, LastOf, Upstream, FromUpstream, PayloadAt, Answer;
  }

  lemma TakeTimed(s: Sync, from: int, changes: seq<Change>, pages: seq<seq<string>>, step: Step)
    requires Timed(s, from)
    ensures Timed(Take(s, changes, pages, step), from)
  {
    hide UpsertAll, Answer;
  }

  lemma TakeCovered(s: Sync, changes: seq<Change>, pages: seq<seq<string>>, step: Step)
    requires Covered(s, pages)
    ensures Covered(Take(s, changes, pages, step), pages)
  {
    hide UpsertAll, Answer;
    if s.cursor < |pages| {
      PageInAll(pages, s.cursor);
      assert pages[..s.cursor + 1][..s.cursor] == pages[..s.cursor];
      assert s.cursor + 1 == |pages| ==> pages[..s.cursor + 1] == pages;
      assert AllIds(pages[..s.cursor + 1]) == AllIds(pages[..s.cursor]) + pages[s.cursor];
      assert AllIds(pages[..0]) == [];
    }
  }

  lemma {:induction false} RunInv(r: Replica, from: int, changes: seq<Change>, pages: seq<seq<string>>,
          steps: seq<Step>)
    requires Upstream(changes)
    ensures var s := Run(r, from, changes, pages, steps); Recorded(s, r, changes) && Timed(s, from) && Covered(s, pages)
  {
    if steps == [] {
      assert pages[..0] == [];
    } else {
      var n := |steps| - 1;
      RunInv(r, from, changes, pages, steps[..n]);
      hide Recorded, Timed, Covered, Take, Upstream;
      var s := Run(r, from, changes, pages, steps[..n]);
      TakeRecorded(s, r, from, changes, pages, steps[n]);
      TakeTimed(s, from, changes, pages, steps[n]);
      TakeCovered(s, changes, pages, steps[n]);
    }
  }

  // ---- the watermark ----

  /** The product's last change came after its page was fetched and before what the incremental run asks for. */
  predicate Missed(s: Sync, changes: seq<Change>, id: string, t: int) {
    var changed := ChangedAt(changes, id, t);
    id in s.fetchedAt && changed.Some? && s.fetchedAt[id] < changed.value < s.startedAt - 60_000
  }

  // What the full run and the incremental run together say last about a product.
  lemma LastWritten(s: Sync, r: Replica, from: int, changes: seq<Change>, pages: seq<seq<string>>, t: int, id: string)
    requires Upstream(changes) && Recorded(s, r, changes) && Timed(s, from) && Covered(s, pages)
    requires s.completed && s.now <= t
    ensures var last := LastOf(s.written + Answer(changes, AllIds(pages), t, Some(Watermark(s))), id);
            last == (if Missed(s, changes, id, t) then PayloadAt(changes, id, s.fetchedAt[id])
                     else if id in AllIds(pages) then PayloadAt(changes, id, t) else None)
  {
    hide Apart, InOrder, Stamped, FromUpstream, UpsertAll, AllIds;
    LastOfConcat(s.written, Answer(changes, AllIds(pages), t, Some(Watermark(s))), id);
    LastOfAnswer(changes, AllIds(pages), t, Some(Watermark(s)), id);
    if id in s.fetchedAt {
      SamePayload(changes, id, s.fetchedAt[id], t);
    }
  }

  lemma IncrementalIs(s: Sync, r: Replica, changes: seq<Change>, pages: seq<seq<string>>, t: int)
    requires Recorded(s, r, changes)
    ensures var page := Answer(changes, AllIds(pages), t, Some(Watermark(s)));
            Incremental(s, changes, pages, t) == UpsertAll(r, s.written + page)
            && FromUpstream(changes, s.written + page)
  {
    var page := Answer(changes, AllIds(pages), t, Some(Watermark(s)));
    Replay.UpsertConcat(r, s.written, page);
    AnswerFromUpstream(changes, AllIds(pages), t, Some(Watermark(s)));
    hide Made, UpsertAll;
  }

  lemma NoneMissedFaithful(s: Sync, r: Replica, from: int, changes: seq<Change>, pages: seq<seq<string>>, t: int)
    requires Upstream(changes) && Recorded(s, r, changes) && Timed(s, from) && Covered(s, pages)
    requires s.completed && s.now <= t && Known(r, changes, pages, from)
    requires forall id :: !Missed(s, changes, id, t)
    ensures Incremental(s, changes, pages, t) == Faithful(changes, pages, t)
  {
    var page, all := Answer(changes, AllIds(pages), t, Some(Watermark(s))), Answer(changes, AllIds(pages), t, None);
    var ps := s.written + page;
    IncrementalIs(s, r, changes, pages, t);
    AnswerFromUpstream(changes, AllIds(pages), t, None);
    assert FromUpstream(changes, ps + all);
    UpstreamIsTidy(changes, ps + all);
    hide Upstream, FromUpstream, Tidy, UpsertAll, Answer, AllIds;
    forall id
      ensures LastOf(ps, id) == LastOf(all, id) == if id in AllIds(pages) then PayloadAt(changes, id, t) else None
    {
      LastWritten(s, r, from, changes, pages, t, id);
      LastOfAnswer(changes, AllIds(pages), t, None, id);
    }
    forall id | id in AllIds(pages) && PayloadAt(changes, id, from).Some?
      ensures PayloadAt(changes, id, t).Some?
    {
      SamePayload(changes, id, from, t);
    }
    SameLastSameReplica(r, ps, all);
  }

  lemma MissedIsStale(s: Sync, r: Replica, from: int, changes: seq<Change>, pages: seq<seq<string>>, t: int, id: string)
    requires Upstream(changes) && Recorded(s, r, changes) && Timed(s, from) && Covered(s, pages)
    requires s.completed && s.now <= t && Known(r, changes, pages, from) && Missed(s, changes, id, t)
    ensures Replay.Get(Incremental(s, changes, pages, t).products, id)
         != Replay.Get(Faithful(changes, pages, t).products, id)
  {
    var page, all := Answer(changes, AllIds(pages), t, Some(Watermark(s))), Answer(changes, AllIds(pages), t, None);
    IncrementalIs(s, r, changes, pages, t);
    LastWritten(s, r, from, changes, pages, t, id);
    LastOfAnswer(changes, AllIds(pages), t, None, id);
    SamePayload(changes, id, s.fetchedAt[id], t);
    SamePayload(changes, id, from, s.fetchedAt[id]);
    hide Upstream, FromUpstream, UpsertAll, Answer, AllIds;
    Replay.ProductAfter(r, s.written + page, id);
    Replay.ProductAfter(Replica(map[], map[]), all, id);
    ProductFateIs(s.written + page, id);
    ProductFateIs(all, id);
  }

  /** After a full run, however it was crashed and resumed, and the next incremental run, the replica is
      the upstream store if and only if no product's last change fell after its page was fetched and more
      than a minute before the full run was last resumed. */
  lemma ReplicaFaithfulIff(r: Replica, from: int, changes: seq<Change>, pages: seq<seq<string>>, steps: seq<Step>,
          t: int)
    requires Upstream(changes) && Known(r, changes, pages, from)
    requires Run(r, from, changes, pages, steps).completed && Run(r, from, changes, pages, steps).now <= t
    ensures var s := Run(r, from, changes, pages, steps);
            Incremental(s, changes, pages, t) == Faithful(changes, pages, t)
            <==> forall id :: id in AllIds(pages) ==> !Missed(s, changes, id, t)
  {
    RunInv(r, from, changes, pages, steps);
    var s := Run(r, from, changes, pages, steps);
    hide Upstream, Recorded, Incremental, Faithful, Known;
    if id :| id in AllIds(pages) && Missed(s, changes, id, t) {
      MissedIsStale(s, r, from, changes, pages, t, id);
    } else {
      NoneMissedFaithful(s, r, from, changes, pages, t);
    }
  }

  /** A run that was never resumed loses no change. */
  lemma SingleAttemptFaithful(r: Replica, from: int, changes: seq<Change>, pages: seq<seq<string>>, steps: seq<Step>,
          t: int)
    requires Upstream(changes) && Known(r, changes, pages, from)
    requires Run(r, from, changes, pages, steps).completed && Run(r, from, changes, pages, steps).now <= t
    requires Run(r, from, changes, pages, steps).attempts == 1
    ensures Incremental(Run(r, from, changes, pages, steps), changes, pages, t) == Faithful(changes, pages, t)
  {
    RunInv(r, from, changes, pages, steps);
    ReplicaFaithfulIff(r, from, changes, pages, steps, t);
    hide Upstream, Recorded, Incremental, Faithful, Known, Covered;
  }

  function Product(id: string, title: string, at: int): ProductPayload {
    var variant := VariantFields("1.00", None, None, None, None, None, None, None);
    ProductPayload(id, ProductFields(title, ACTIVE, [], None, None, None, None, None, Some(at)),
                   [VariantPayload(id, variant)])
  }

  const RENAMED := [
    Change(0, Product("p", "old", 0)), Change(0, Product("q", "q", 0)),
    Change(3_600_000, Product("p", "new", 3_600_000))]

  const TWO_PAGES := [["p"], ["q"]]

  const RESUMED := [Begin(1), PageDone(1_000), Crash(2_000), Begin(7_200_000), PageDone(7_201_000)]

  const EMPTY := Replica(map[], map[])

  lemma RenamedIsUpstream()
    ensures Upstream(RENAMED) && ChangedAt(RENAMED, "p", 8_000_000) == Some(3_600_000)
  {
    assert RENAMED[..2] == [Change(0, Product("p", "old", 0)), Change(0, Product("q", "q", 0))];
    assert "p" != "q";
    forall i, j | 0 <= i < 3 && 0 <= j < 3
      ensures Apart(RENAMED[i].payload, RENAMED[j].payload)
    {
      assert RENAMED[i].payload.variants[0].id == RENAMED[i].payload.id;
    }
  }

  lemma RunNext(r: Replica, from: int, changes: seq<Change>, pages: seq<seq<string>>, steps: seq<Step>, k: nat)
    requires k < |steps|
    ensures Run(r, from, changes, pages, steps[..k + 1])
         == Take(Run(r, from, changes, pages, steps[..k]), changes, pages, steps[k])
  {
    hide Take;
    assert steps[..k + 1][..k] == steps[..k];
  }

  lemma FiveSteps(r: Replica, from: int, changes: seq<Change>, pages: seq<seq<string>>, steps: seq<Step>)
    requires |steps| == 5
    ensures Run(r, from, changes, pages, steps)
         == var s0 := Sync(from, from, 0, false, false, r, [], map[], 0);
            var s2 := Take(Take(s0, changes, pages, steps[0]), changes, pages, steps[1]);
            var s4 := Take(Take(s2, changes, pages, steps[2]), changes, pages, steps[3]);
            Take(s4, changes, pages, steps[4])
  {
    RunNext(r, from, changes, pages, steps, 0);
    RunNext(r, from, changes, pages, steps, 1);
    RunNext(r, from, changes, pages, steps, 2);
    RunNext(r, from, changes, pages, steps, 3);
    RunNext(r, from, changes, pages, steps, 4);
    assert steps[..5] == steps && steps[..0] == [];
    hide Take;
  }

  /** A product whose page was fetched in the first second, renamed an hour later in a run that was
      resumed an hour after that: the incremental run does not ask for it, and the old name stays. */
  lemma ResumeLosesChange()
    ensures var s := Run(EMPTY, 0, RENAMED, TWO_PAGES, RESUMED);
            && s.completed && s.now <= 8_000_000 && Upstream(RENAMED) && Known(EMPTY, RENAMED, TWO_PAGES, 0)
            && Incremental(s, RENAMED, TWO_PAGES, 8_000_000) != Faithful(RENAMED, TWO_PAGES, 8_000_000)
  {
    var s := Run(EMPTY, 0, RENAMED, TWO_PAGES, RESUMED);
    RenamedIsUpstream();
    hide Upstream, Incremental, Faithful, UpsertAll, Answer, ChangedAt;
    FiveSteps(EMPTY, 0, RENAMED, TWO_PAGES, RESUMED);
    assert s.completed && s.startedAt == 7_200_000 && s.fetchedAt["p"] == 1_000;
    hide Run, Take;
    PageInAll(TWO_PAGES, 0);
    assert "p" in TWO_PAGES[0];
    assert Missed(s, RENAMED, "p", 8_000_000);
    ReplicaFaithfulIff(EMPTY, 0, RENAMED, TWO_PAGES, RESUMED, 8_000_000);
  }
}
