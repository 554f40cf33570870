/** Replayed pages are absorbed, so a checkpointed run that crashes and resumes ends with the replica
    of an uninterrupted one (packages/sync/src/runner.ts). */
module SyncReplay {
  import opened Wrappers
  import opened SyncWriters

  function Get<T>(m: map<string, T>, k: string): Option<T> {
    if k in m then Some(m[k]) else None
  }

  /** What a stream of payloads says about a variant, whatever was there before. */
  datatype Fate = Untouched | Kept(row: VariantRow) | Gone

  function LastListed(product: string, payload: seq<VariantPayload>, id: string): VariantRow
    requires Lists(payload, id)
  {
    var n := |payload| - 1;
    if payload[n].id == id then VariantRow(product, payload[n].fields)
    else
      assert payload[..n] + [payload[n]] == payload;
      assert Lists(payload[..n], id) by {
        var i :| 0 <= i < |payload| && payload[i].id == id;
        assert payload[..n][i].id == id;
      }
      LastListed(product, payload[..n], id)
  }

  function FateOf(ps: seq<ProductPayload>, id: string): Fate {
    if ps == [] then Untouched
    else
      var before, p := FateOf(ps[..|ps| - 1], id), ps[|ps| - 1];
      if Lists(p.variants, id) then Kept(LastListed(p.id, p.variants, id))
      else if p.variants != [] && before.Kept? && before.row.product == p.id then Gone
      else before
  }

  predicate Claims(ps: seq<ProductPayload>, product: string) {
    exists i :: 0 <= i < |ps| && ps[i].id == product && ps[i].variants != []
  }

  lemma {:induction false} UpsertedAt(rows: map<string, VariantRow>, product: string, payload: seq<VariantPayload>,
          id: string)
    ensures Get(UpsertVariants(rows, product, payload), id) ==
            if Lists(payload, id) then Some(LastListed(product, payload, id)) else Get(rows, id)
  {
    if payload != [] {
      var n := |payload| - 1;
      UpsertedAt(rows, product, payload[..n], id);
      if payload[n].id != id {
        assert Lists(payload, id) <==> Lists(payload[..n], id) by {
          if Lists(payload, id) {
            var i :| 0 <= i < |payload| && payload[i].id == id;
            assert payload[..n][i].id == id;
          }
          if Lists(payload[..n], id) {
            var i :| 0 <= i < n && payload[..n][i].id == id;
            assert payload[i].id == id;
          }
        }
      }
    }
  }

  /** The final row of every variant: decided by the stream for each variant it lists, and otherwise
      kept unless the stream claims its product. */
  lemma {:induction false} VariantAfter(r: Replica, ps: seq<ProductPayload>, id: string)
    ensures Get(UpsertAll(r, ps).variants, id) ==
            match FateOf(ps, id)
            case Kept(row) => Some(row)
            case Gone => None
            case Untouched =>
              if id in r.variants && !Claims(ps, r.variants[id].product) then Some(r.variants[id]) else None
  {
    if ps != [] {
      var n := |ps| - 1;
      var p, before := ps[n], UpsertAll(r, ps[..n]);
      VariantAfter(r, ps[..n], id);
      UpsertedAt(before.variants, p.id, p.variants, id);
      forall product
        ensures Claims(ps, product) <==> Claims(ps[..n], product) || (p.id == product && p.variants != [])
      {
        ClaimsNext(ps, product);
      }
    }
  }

  lemma ClaimsNext(ps: seq<ProductPayload>, product: string)
    requires ps != []
    ensures var n := |ps| - 1;
            Claims(ps, product) <==> Claims(ps[..n], product) || (ps[n].id == product && ps[n].variants != [])
  {
    var n := |ps| - 1;
    if Claims(ps, product) {
      var i :| 0 <= i < |ps| && ps[i].id == product && ps[i].variants != [];
      assert i < n ==> ps[..n][i] == ps[i];
    }
    if Claims(ps[..n], product) {
      var i :| 0 <= i < n && ps[..n][i].id == product && ps[..n][i].variants != [];
      assert ps[i] == ps[..n][i];
    }
  }

  /** Nothing lists an untouched variant. */
  lemma {:induction false} UntouchedMeansUnlisted(ps: seq<ProductPayload>, id: string)
    ensures FateOf(ps, id) == Untouched <==> forall p :: p in ps ==> !Lists(p.variants, id)
  {
    if ps != [] {
      var n := |ps| - 1;
      UntouchedMeansUnlisted(ps[..n], id);
      assert ps == ps[..n] + [ps[n]];
    }
  }

  function ProductFate(ps: seq<ProductPayload>, id: string): Option<ProductFields> {
    if ps == [] then None
    else if ps[|ps| - 1].id == id then Some(ps[|ps| - 1].fields)
    else ProductFate(ps[..|ps| - 1], id)
  }

  lemma {:induction false} ProductAfter(r: Replica, ps: seq<ProductPayload>, id: string)
    ensures Get(UpsertAll(r, ps).products, id) == if ProductFate(ps, id).Some? then ProductFate(ps, id)
        else Get(r.products, id)
    ensures ProductFate(ps, id).Some? <==> exists p :: p in ps && p.id == id
  {
    if ps != [] {
      var n := |ps| - 1;
      assert ps == ps[..n] + [ps[n]];
      ProductAfter(r, ps[..n], id);
    }
  }

  /** Replay is absorbed: payloads that the segment itself contains leave no trace once the segment has
      been applied, even when variants move between products or vanish on the way. */
  lemma ReplayAbsorbed(r: Replica, replayed: seq<ProductPayload>, segment: seq<ProductPayload>)
    requires forall p :: p in replayed ==> p in segment
    ensures UpsertAll(UpsertAll(r, replayed), segment) == UpsertAll(r, segment)
  {
    var twice, once := UpsertAll(UpsertAll(r, replayed), segment), UpsertAll(r, segment);
    forall id
      ensures Get(twice.variants, id) == Get(once.variants, id)
    {
      VariantAbsorbed(r, replayed, segment, id);
    }
    SameMap(twice.variants, once.variants);
    forall id
      ensures Get(twice.products, id) == Get(once.products, id)
    {
      ProductAfter(r, replayed, id);
      ProductAfter(UpsertAll(r, replayed), segment, id);
      ProductAfter(r, segment, id);
    }
    SameMap(twice.products, once.products);
  }

  lemma VariantAbsorbed(r: Replica, replayed: seq<ProductPayload>, segment: seq<ProductPayload>, id: string)
    requires forall p :: p in replayed ==> p in segment
    ensures Get(UpsertAll(UpsertAll(r, replayed), segment).variants, id) == Get(UpsertAll(r, segment).variants, id)
  {
    VariantAfter(r, replayed, id);
    VariantAfter(UpsertAll(r, replayed), segment, id);
    VariantAfter(r, segment, id);
    UntouchedMeansUnlisted(segment, id);
    UntouchedMeansUnlisted(replayed, id);
    if FateOf(segment, id) == Untouched && id in r.variants {
      var product := r.variants[id].product;
      if Claims(replayed, product) {
        var i :| 0 <= i < |replayed| && replayed[i].id == product && replayed[i].variants != [];
        assert replayed[i] in segment;
        var j :| 0 <= j < |segment| && segment[j] == replayed[i];
        assert Claims(segment, product);
      }
    }
  }

  lemma SameMap<T>(a: map<string, T>, b: map<string, T>)
    requires forall k :: Get(a, k) == Get(b, k)
    ensures a == b
  {
    forall k
      ensures k in a <==> k in b
      ensures k in a ==> k in b && a[k] == b[k]
    {
      assert Get(a, k) == Get(b, k);
    }
  }

  // ---- the payload is authoritative, if it lists any variants ----

  /** After an upsert the product owns exactly the variants of its payload if and only if the payload
      lists some or the product owned none: an empty payload removes nothing. */
  lemma OwnsExactlyPayload(r: Replica, p: ProductPayload)
    ensures (forall id :: (id in UpsertProduct(r, p).variants && UpsertProduct(r, p).variants[id].product == p.id)
                          <==> Lists(p.variants, id))
            <==> p.variants != [] || forall id :: id in r.variants ==> r.variants[id].product != p.id
  {
    forall id
      ensures Get(UpsertVariants(r.variants, p.id, p.variants), id) ==
              if Lists(p.variants, id) then Some(LastListed(p.id, p.variants, id)) else Get(r.variants, id)
    {
      UpsertedAt(r.variants, p.id, p.variants, id);
    }
    forall id | Lists(p.variants, id)
      ensures LastListed(p.id, p.variants, id).product == p.id
    {
      ListedOwner(p.id, p.variants, id);
    }
    if p.variants == [] {
      assert forall id :: !Lists(p.variants, id);
      assert UpsertProduct(r, p).variants == r.variants;
    }
  }

  lemma {:induction false} ListedOwner(product: string, payload: seq<VariantPayload>, id: string)
    requires Lists(payload, id)
    ensures LastListed(product, payload, id).product == product
  {
    var n := |payload| - 1;
    if payload[n].id != id {
      var i :| 0 <= i < |payload| && payload[i].id == id;
      assert payload[..n][i].id == id;
      ListedOwner(product, payload[..n], id);
    }
  }

  // ---- runs over the pages of a full sync ----

  function Flatten(pages: seq<seq<ProductPayload>>): seq<ProductPayload> {
    if pages == [] then [] else Flatten(pages[..|pages| - 1]) + pages[|pages| - 1]
  }

  /** Where a full sync stands: the replica, and the page its checkpoint resumes from; 0 is a run
      without a cursor, which starts over. */
  datatype Sync = Sync(replica: Replica, cursor: nat, completed: bool)

  datatype Step =
    | PageDone           // the page is written and its checkpoint saved
    | CrashBeforeSave    // the page is written, the checkpoint is not
    | CrashBeforeFinish  // the last checkpoint, which clears the cursor, is saved and nothing after it
    | NewRun             // no resumable row is found: a new run from the first page

  function Take(s: Sync, pages: seq<seq<ProductPayload>>, step: Step): Sync {
    if s.completed || s.cursor >= |pages| then s
    else
      var written := UpsertAll(s.replica, pages[s.cursor]);
      var last := s.cursor == |pages| - 1;
      match step
      case PageDone => Sync(written, if last then 0 else s.cursor + 1, last)
      case CrashBeforeSave => s.(replica := written)
      case CrashBeforeFinish => if last then Sync(written, 0, false) else s
      case NewRun => s.(cursor := 0)
  }

  function TakeAll(r: Replica, pages: seq<seq<ProductPayload>>, steps: seq<Step>): Sync {
    if steps == [] then Sync(r, 0, false) else Take(TakeAll(r, pages, steps[..|steps| - 1]), pages, steps[|steps| - 1])
  }

  lemma {:induction false} UpsertConcat(r: Replica, a: seq<ProductPayload>, b: seq<ProductPayload>)
    ensures UpsertAll(r, a + b) == UpsertAll(UpsertAll(r, a), b)
  {
    if b == [] {
      assert a + b == a;
    } else {
      var n := |b| - 1;
      assert (a + b)[..|a| + n] == a + b[..n];
      UpsertConcat(r, a, b[..n]);
    }
  }

  lemma {:induction false} FlattenDrop(pages: seq<seq<ProductPayload>>, c: nat)
    requires c < |pages|
    ensures Flatten(pages[c..]) == pages[c] + Flatten(pages[c + 1..])
    decreases |pages|
  {
    var n := |pages| - 1;
    if c == n {
      assert pages[c..] == [pages[c]] && pages[c + 1..] == [];
      assert [pages[c]][..0] == [];
      assert Flatten([pages[c]]) == [] + pages[c];
    } else {
      FlattenDrop(pages[..n], c);
      assert pages[c..][..n - c] == pages[..n][c..] && pages[c + 1..][..n - c - 1] == pages[..n][c + 1..];
    }
  }

  lemma {:induction false} FlattenHas(pages: seq<seq<ProductPayload>>, c: nat)
    requires c < |pages|
    ensures forall p :: p in pages[c] ==> p in Flatten(pages)
    decreases |pages|
  {
    var n := |pages| - 1;
    if c < n {
      FlattenHas(pages[..n], c);
      assert pages[..n][c] == pages[c];
    }
  }

  // Finishing from the cursor, or from the start, would give the uninterrupted replica.
  ghost predicate OnCourse(s: Sync, pages: seq<seq<ProductPayload>>, goal: Replica) {
    && s.cursor <= |pages| && UpsertAll(s.replica, Flatten(pages)) == goal
    && (if s.completed then s.replica == goal else UpsertAll(s.replica, Flatten(pages[s.cursor..])) == goal)
  }

  lemma TakeKeepsCourse(s: Sync, pages: seq<seq<ProductPayload>>, step: Step, goal: Replica)
    requires OnCourse(s, pages, goal)
    ensures OnCourse(Take(s, pages, step), pages, goal)
  {
    assert pages[0..] == pages;
    if !s.completed && s.cursor < |pages| {
      var page, c := pages[s.cursor], s.cursor;
      FlattenDrop(pages, c);
      UpsertConcat(s.replica, page, Flatten(pages[c + 1..]));
      FlattenHas(pages, c);
      ReplayAbsorbed(s.replica, page, Flatten(pages));
      ReplayAbsorbed(s.replica, page, Flatten(pages[c..]));
      if c == |pages| - 1 {
        assert pages[c + 1..] == [];
      }
      hide UpsertAll, Flatten;
      assert Flatten([]) == [] && UpsertAll(UpsertAll(s.replica, page), []) == UpsertAll(s.replica, page) by {
        Nothing(UpsertAll(s.replica, page));
      }
    }
  }

  lemma Nothing(r: Replica)
    ensures Flatten([]) == [] && UpsertAll(r, []) == r
  {
  }

  /** However a full sync is crashed, resumed or started over, once it completes the replica is the one
      an uninterrupted run would have left. */
  lemma {:induction false} ResumedRunsAgree(r: Replica, pages: seq<seq<ProductPayload>>, steps: seq<Step>)
    ensures OnCourse(TakeAll(r, pages, steps), pages, UpsertAll(r, Flatten(pages)))
  {
    if steps == [] {
      assert pages[0..] == pages;
    } else {
      ResumedRunsAgree(r, pages, steps[..|steps| - 1]);
      TakeKeepsCourse(TakeAll(r, pages, steps[..|steps| - 1]), pages, steps[|steps| - 1], UpsertAll(r, Flatten(pages)));
    }
  }
}
