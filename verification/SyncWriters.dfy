/** The product writer of packages/sync/src/writers.ts over one store's replica. Rows are keyed by
    their Shopify ids; surrogate ids and creation stamps are not part of the replica. */
module SyncWriters {
  import opened Wrappers

  datatype ProductStatus = ACTIVE | DRAFT | ARCHIVED

  datatype VariantFields = VariantFields(
    price: string, sku: Option<string>, title: Option<string>, compareAtPrice: Option<string>,
    inventoryItemId: Option<string>, position: Option<int>, barcode: Option<string>, updatedAt: Option<int>)

  datatype ProductFields = ProductFields(
    title: string, status: ProductStatus, tags: seq<string>, handle: Option<string>, vendor: Option<string>,
    productType: Option<string>, bodyHtml: Option<string>, publishedAt: Option<int>, updatedAt: Option<int>)

  datatype VariantPayload = VariantPayload(id: string, fields: VariantFields)

  datatype ProductPayload = ProductPayload(id: string, fields: ProductFields, variants: seq<VariantPayload>)

  datatype VariantRow = VariantRow(product: string, fields: VariantFields)

  datatype Replica = Replica(products: map<string, ProductFields>, variants: map<string, VariantRow>)

  datatype Stats = Stats(processed: nat, created: nat, updated: nat, failed: nat)

  type VariantTable = map<string, VariantRow>

  function UpsertVariants(rows: VariantTable, product: string, payload: seq<VariantPayload>): VariantTable {
    if payload == [] then rows
    else
      var v := payload[|payload| - 1];
      UpsertVariants(rows, product, payload[..|payload| - 1])[v.id := VariantRow(product, v.fields)]
  }

  predicate Lists(payload: seq<VariantPayload>, id: string) {
    exists i :: 0 <= i < |payload| && payload[i].id == id
  }

  // Children that vanished upstream: only a payload that lists any variants removes the others.
  function RemoveVanished(rows: VariantTable, product: string, payload: seq<VariantPayload>): VariantTable {
    if payload == [] then rows
    else map id | id in rows && (rows[id].product == product ==> Lists(payload, id)) :: rows[id]
  }

  function UpsertProduct(r: Replica, p: ProductPayload): Replica {
    Replica(r.products[p.id := p.fields],
        RemoveVanished(UpsertVariants(r.variants, p.id, p.variants), p.id, p.variants))
  }

  function UpsertAll(r: Replica, ps: seq<ProductPayload>): Replica {
    if ps == [] then r else UpsertProduct(UpsertAll(r, ps[..|ps| - 1]), ps[|ps| - 1])
  }

  function Rows(ps: seq<ProductPayload>): nat {
    if ps == [] then 0 else Rows(ps[..|ps| - 1]) + 1 + |ps[|ps| - 1].variants|
  }

  /** The store's tables, updated in place. */
  class ReplicaStore {
    var products: map<string, ProductFields>
    var variants: map<string, VariantRow>

    constructor ()
      ensures View() == Replica(map[], map[])
    {
      products, variants := map[], map[];
    }

    function View(): Replica
      reads this
    {
      Replica(products, variants)
    }

    /** upsertProducts: every payload row is counted once, as created or updated. */
    method UpsertProducts(payload: seq<ProductPayload>) returns (stats: Stats)
      modifies this
      ensures View() == UpsertAll(old(View()), payload)
      ensures stats.processed == Rows(payload) && stats.created + stats.updated == stats.processed && stats.failed == 0
    {
      stats := Stats(0, 0, 0, 0);
      assert payload[..0] == [];
      for i := 0 to |payload|
        invariant View() == UpsertAll(old(View()), payload[..i])
        invariant stats.processed == Rows(payload[..i]) && stats.created + stats.updated == stats.processed
            && stats.failed == 0
      {
        assert payload[..i + 1][..i] == payload[..i];
        var p := payload[i];
        var inserted := if p.id in products then 0 else 1;
        products := products[p.id := p.fields];
        stats := Stats(stats.processed + 1, stats.created + inserted, stats.updated + 1 - inserted, 0);
        var created := UpsertChildren(p.id, p.variants);
        stats := Stats(stats.processed + |p.variants|, stats.created + created,
            stats.updated + |p.variants| - created, 0);
        if |p.variants| > 0 {
          variants := RemoveVanished(variants, p.id, p.variants);
        }
      }
      assert payload[..|payload|] == payload;
    }

    method UpsertChildren(product: string, payload: seq<VariantPayload>) returns (created: nat)
      modifies this`variants
      ensures variants == UpsertVariants(old(variants), product, payload)
      ensures created <= |payload| && |variants| == |old(variants)| + created
    {
      created := 0;
      assert payload[..0] == [];
      for j := 0 to |payload|
        invariant variants == UpsertVariants(old(variants), product, payload[..j])
        invariant created <= j && |variants| == |old(variants)| + created
      {
        assert payload[..j + 1][..j] == payload[..j];
        var v := payload[j];
        if v.id !in variants {
          created := created + 1;
        }
        variants := variants[v.id := VariantRow(product, v.fields)];
      }
      assert payload[..|payload|] == payload;
    }
  }
}
