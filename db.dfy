/** The data layer's browser-storage branch: default records, the GS1
    column filter, the missing-column test, and the product list kept under
    one storage key, with create, update, remove and bulk import. The clock
    and the uuid generator are inputs. */
module Db {
  import opened Wrappers
  import opened Text
  import opened Lists
  import opened Records

  /** `GS1_COLS`: the optional columns a later database migration adds. */
  const Gs1Cols: seq<string> := ["gpc_code", "peso_bruto", "peso_liquido", "conteudo_liquido", "origem"]

  /** The defaults `blank` starts from: every product and GS1 field empty,
      except the origin code '076'. */
  const Defaults: Record := map[
    "nome" := "", "sku" := "", "ncm" := "", "cest" := "", "ean" := "",
    "custo" := "", "fotos_drive" := "", "thumbnail" := "",
    "video_ml" := "", "video_shopee" := "",
    "gpc_code" := "", "peso_bruto" := "", "peso_liquido" := "", "conteudo_liquido" := "", "origem" := "076"
  ]

  /** `blank(data)`: the defaults, overridden by whatever `data` holds. */
  function Blank(data: Record): (r: Record)
    ensures forall i :: 0 <= i < |ProductFields| ==> ProductFields[i] in r
    ensures forall i :: 0 <= i < |Gs1Cols| ==> Gs1Cols[i] in r
    ensures r.Keys == data.Keys + Defaults.Keys
    ensures forall k :: k in data ==> r[k] == data[k]
    ensures forall k :: k in r && k !in data ==> r[k] == (if k == "origem" then "076" else "")
  {
    Defaults + data
  }

  /** A record that went through `blank` once is left alone by it. */
  lemma BlankIdempotent(data: Record)
    ensures Blank(Blank(data)) == Blank(data)
  {
  }

  /** `withoutGs1(obj)`: the record with the five GS1 keys dropped. */
  function WithoutGs1(obj: Record): (r: Record)
    ensures forall k :: k in r <==> k in obj && k !in Gs1Cols
    ensures forall k :: k in r ==> r[k] == obj[k]
  {
    map k | k in obj && k !in Gs1Cols :: obj[k]
  }

  /** Dropping the GS1 keys from a default record keeps every product
      field and its value. */
  lemma WithoutGs1KeepsProductFields(data: Record)
    ensures forall i :: 0 <= i < |ProductFields| ==>
              ProductFields[i] in WithoutGs1(Blank(data)) &&
              WithoutGs1(Blank(data))[ProductFields[i]] == Blank(data)[ProductFields[i]]
  {
  }

  /** The error object a database call may raise; either part may be
      missing. */
  datatype DbError = DbError(code: Option<string>, message: Option<string>)

  /** `isMissingColumnError(err)`: the database reports a column that the
      GS1 migration has not created yet. */
  predicate IsMissingColumnError(err: Option<DbError>)
    ensures IsMissingColumnError(err) <==>
              err.Some? &&
              (err.value.code == Some("PGRST204") ||
               (err.value.message.Some? && exists i :: OccursAt("does not exist", err.value.message.value, i)))
  {
    match err
    case None => false
    case Some(e) =>
      e.code == Some("PGRST204") ||
      (match e.message case None => false case Some(m) => Contains(m, "does not exist"))
  }

  // ---------------------------------------------------- stored records

  /** `p.id === id`. */
  predicate HasId(p: Record, id: string) {
    "id" in p && p["id"] == id
  }

  /** `{ id, ...blank(data), created_at: now, updated_at: now }`. A key
      `id` in `data` overrides the generated one; the two time stamps
      override anything in `data`. */
  function NewRecord(id: string, data: Record, now: string): (r: Record)
    ensures forall i :: 0 <= i < |ProductFields| ==> ProductFields[i] in r
    ensures "id" in r && r["id"] == (if "id" in data then data["id"] else id)
    ensures "created_at" in r && "updated_at" in r && r["created_at"] == now && r["updated_at"] == now
    ensures forall k :: k in data && k != "created_at" && k != "updated_at" ==> k in r && r[k] == data[k]
    ensures forall k :: k in r <==> k in data || k in Defaults || k in {"id", "created_at", "updated_at"}
    // a default field the data lacks is '' (`origem` is '076')
    ensures forall k :: k in r && k !in data && k != "id" && k != "created_at" && k != "updated_at" ==>
      r[k] == (if k == "origem" then "076" else "")
  {
    var b := Blank(data);
    NewRecordOfBlank(id, data, b, now, Defaults.Keys, ProductFields);
    (map["id" := id] + b)["created_at" := now]["updated_at" := now]
  }

  /** The facts about a new record, for any `b` with the keys and values
      `blank(data)` has, over the default keys `dk` and the fields `fs`. */
  lemma NewRecordOfBlank(id: string, data: Record, b: Record, now: string, dk: set<string>, fs: seq<string>)
    requires forall i :: 0 <= i < |fs| ==> fs[i] in b
    requires b.Keys == data.Keys + dk && "id" !in dk
    requires forall k :: k in data ==> b[k] == data[k]
    requires forall k :: k in b && k !in data ==> b[k] == (if k == "origem" then "076" else "")
    ensures var r := (map["id" := id] + b)["created_at" := now]["updated_at" := now];
      && (forall i :: 0 <= i < |fs| ==> fs[i] in r)
      && "id" in r && r["id"] == (if "id" in data then data["id"] else id)
      && "created_at" in r && "updated_at" in r && r["created_at"] == now && r["updated_at"] == now
      && (forall k :: k in data && k != "created_at" && k != "updated_at" ==> k in r && r[k] == data[k])
      && (forall k :: k in r <==> k in data || k in dk || k in {"id", "created_at", "updated_at"})
      && (forall k :: k in r && k !in data && k != "id" && k != "created_at" && k != "updated_at" ==>
            r[k] == (if k == "origem" then "076" else ""))
  {
    var r := (map["id" := id] + b)["created_at" := now]["updated_at" := now];
    assert forall k :: k in r && k != "id" && k != "created_at" && k != "updated_at" ==> k in b && r[k] == b[k];
  }

  /** `{ ...p, ...data, updated_at: now }`. */
  function Merge(p: Record, data: Record, now: string): (r: Record)
    ensures forall k :: k in r <==> k in p || k in data || k == "updated_at"
    ensures r["updated_at"] == now
    ensures forall k :: k in data && k != "updated_at" ==> r[k] == data[k]
    ensures forall k :: k in p && k !in data && k != "updated_at" ==> r[k] == p[k]
  {
    (p + data)["updated_at" := now]
  }

  /** `row.sku` is present and not empty. */
  predicate HasSku(row: Record) {
    "sku" in row && row["sku"] != ""
  }

  /** The bulk-import match: both SKUs non-empty and equal once
      lower-cased. */
  predicate SkuMatch(p: Record, row: Record) {
    HasSku(p) && HasSku(row) && Lower(p["sku"]) == Lower(row["sku"])
  }

  /** One bulk-import row: merged into the first record with a matching
      SKU, or prepended as a new record. */
  function ImportRow(ps: seq<Record>, row: Record, now: string, id: string): (r: seq<Record>)
    // the row either updates a record in place or adds one at the front
    ensures |r| == |ps| || r == [NewRecord(id, row, now)] + ps
  {
    var idx := FindIndex(ps, p => SkuMatch(p, row));
    if idx == -1 then [NewRecord(id, row, now)] + ps
    else ps[idx := Merge(ps[idx], row, now)]
  }

  /** All rows in order, each seeing what the earlier ones stored; row `i`
      gets the uuid `uuid(i)` if it is inserted. */
  function ImportAll(ps: seq<Record>, rows: seq<Record>, now: string, uuid: nat -> string): (r: seq<Record>)
    // each row adds at most one record and none is removed
    ensures |ps| <= |r| <= |ps| + |rows|
    decreases |rows|
  {
    if rows == [] then ps
    else ImportRow(ImportAll(ps, rows[..|rows| - 1], now, uuid), rows[|rows| - 1], now, uuid(|rows| - 1))
  }

  /** Some stored record matches the row's SKU. */
  ghost predicate SkuFindable(ps: seq<Record>, row: Record) {
    exists k :: 0 <= k < |ps| && SkuMatch(ps[k], row)
  }

  /** A row with a stored SKU is merged into the first record with that
      SKU, in place; any other row is inserted at the front. */
  lemma ImportRowShape(ps: seq<Record>, row: Record, now: string, id: string)
    ensures SkuFindable(ps, row) ==>
              var idx := FindIndex(ps, p => SkuMatch(p, row));
              && 0 <= idx < |ps| && SkuMatch(ps[idx], row)
              && (forall k :: 0 <= k < idx ==> !SkuMatch(ps[k], row))
              && ImportRow(ps, row, now, id) == ps[idx := Merge(ps[idx], row, now)]
    ensures !SkuFindable(ps, row) ==>
              ImportRow(ps, row, now, id) == [NewRecord(id, row, now)] + ps
  {
    var idx := FindIndex(ps, p => SkuMatch(p, row));
    if SkuFindable(ps, row) {
      var k :| 0 <= k < |ps| && SkuMatch(ps[k], row);
      assert idx != -1;
    }
  }

  lemma FindableAfterPrepend(ps: seq<Record>, x: Record, other: Record)
    requires SkuFindable(ps, other)
    ensures SkuFindable([x] + ps, other)
  {
    var k :| 0 <= k < |ps| && SkuMatch(ps[k], other);
    assert ([x] + ps)[k + 1] == ps[k];
  }

  lemma FindableAfterUpdate(ps: seq<Record>, idx: nat, m: Record, other: Record)
    requires SkuFindable(ps, other) && idx < |ps|
    requires SkuMatch(ps[idx], other) ==> SkuMatch(m, other)
    ensures SkuFindable(ps[idx := m], other)
  {
    var k :| 0 <= k < |ps| && SkuMatch(ps[k], other);
    if k == idx {
      assert SkuMatch(ps[idx := m][idx], other);
    } else {
      assert ps[idx := m][k] == ps[k];
    }
  }

  /** Merging a row into the record it matched keeps the record's SKU, up
      to case. */
  lemma MergeKeepsSkuMatch(p: Record, row: Record, now: string, other: Record)
    requires SkuMatch(p, row) && SkuMatch(p, other)
    ensures SkuMatch(Merge(p, row, now), other)
  {
    assert Merge(p, row, now)["sku"] == row["sku"];
  }

  /** Importing a row never makes a stored SKU unfindable. */
  lemma ImportRowKeepsFindable(ps: seq<Record>, row: Record, now: string, id: string, other: Record)
    requires SkuFindable(ps, other)
    ensures SkuFindable(ImportRow(ps, row, now, id), other)
  {
    var idx := FindIndex(ps, p => SkuMatch(p, row));
    if idx == -1 {
      FindableAfterPrepend(ps, NewRecord(id, row, now), other);
    } else {
      if SkuMatch(ps[idx], other) {
        MergeKeepsSkuMatch(ps[idx], row, now, other);
      }
      FindableAfterUpdate(ps, idx, Merge(ps[idx], row, now), other);
    }
  }

  /** After importing a row with a SKU, that SKU can be found. */
  lemma ImportRowMakesFindable(ps: seq<Record>, row: Record, now: string, id: string)
    requires HasSku(row)
    ensures SkuFindable(ImportRow(ps, row, now, id), row)
  {
    var r := ImportRow(ps, row, now, id);
    var idx := FindIndex(ps, p => SkuMatch(p, row));
    if idx == -1 {
      assert SkuMatch(r[0], row);
    } else {
      assert SkuMatch(r[idx], row);
    }
  }

  /** Every imported row with a SKU can be found afterwards; insertions by
      earlier rows stay visible to later ones. */
  lemma {:induction false} ImportedSkusFindable(ps: seq<Record>, rows: seq<Record>, now: string, uuid: nat -> string)
    ensures forall j :: 0 <= j < |rows| && HasSku(rows[j]) ==> SkuFindable(ImportAll(ps, rows, now, uuid), rows[j])
  {
    if rows != [] {
      var n := |rows| - 1;
      var before := ImportAll(ps, rows[..n], now, uuid);
      ImportedSkusFindable(ps, rows[..n], now, uuid);
      forall j | 0 <= j < |rows| && HasSku(rows[j])
        ensures SkuFindable(ImportAll(ps, rows, now, uuid), rows[j])
      {
        if j == n {
          ImportRowMakesFindable(before, rows[n], now, uuid(n));
        } else {
          assert rows[..n][j] == rows[j];
          ImportRowKeepsFindable(before, rows[n], now, uuid(n), rows[j]);
        }
      }
    }
  }

  /** Rows whose SKUs are all already stored only update: the list keeps
      its length. */
  lemma {:induction false} ImportOfKnownSkusKeepsLength(ps: seq<Record>, rows: seq<Record>, now: string, uuid: nat -> string)
    requires forall j :: 0 <= j < |rows| ==> SkuFindable(ps, rows[j])
    ensures |ImportAll(ps, rows, now, uuid)| == |ps|
  {
    if rows != [] {
      var n := |rows| - 1;
      var before := ImportAll(ps, rows[..n], now, uuid);
      assert forall j :: 0 <= j < n ==> rows[..n][j] == rows[j];
      ImportOfKnownSkusKeepsLength(ps, rows[..n], now, uuid);
      FindableStaysAcrossImport(ps, rows[..n], now, uuid, rows[n]);
      ImportRowShape(before, rows[n], now, uuid(n));
    }
  }

  /** A SKU that was findable before an import is findable after it. */
  lemma {:induction false} FindableStaysAcrossImport(ps: seq<Record>, rows: seq<Record>, now: string, uuid: nat -> string, other: Record)
    requires SkuFindable(ps, other)
    ensures SkuFindable(ImportAll(ps, rows, now, uuid), other)
  {
    if rows != [] {
      var n := |rows| - 1;
      FindableStaysAcrossImport(ps, rows[..n], now, uuid, other);
      ImportRowKeepsFindable(ImportAll(ps, rows[..n], now, uuid), rows[n], now, uuid(n), other);
    }
  }

  /** Importing the same sheet a second time, when every row has a SKU,
      adds no records: it only updates. */
  lemma ReimportAddsNothing(ps: seq<Record>, rows: seq<Record>, now: string, later: string, uuid: nat -> string, uuid2: nat -> string)
    requires forall j :: 0 <= j < |rows| ==> HasSku(rows[j])
    ensures |ImportAll(ImportAll(ps, rows, now, uuid), rows, later, uuid2)| == |ImportAll(ps, rows, now, uuid)|
  {
    ImportedSkusFindable(ps, rows, now, uuid);
    ImportOfKnownSkusKeepsLength(ImportAll(ps, rows, now, uuid), rows, later, uuid2);
  }

  /** The product list kept in browser storage under `pim_products`. Every
      operation reads it, changes it in place and writes it back. */
  class LocalStore {
    var products: seq<Record>

    constructor (stored: seq<Record>)
      ensures products == stored
    {
      products := stored;
    }

    /** `create(data)`: the new record goes first. */
    method Create(data: Record, uuid: string, now: string) returns (product: Record)
      modifies this
      ensures product == NewRecord(uuid, data, now)
      ensures products == [product] + old(products)
    {
      product := NewRecord(uuid, data, now);
      products := [product] + products;
    }

    /** `update(id, data)`: the first record with that id is merged with
      `data`; an unknown id gives null and writes nothing. */
    method Update(id: string, data: Record, now: string) returns (r: Option<Record>)
      modifies this
      ensures var idx := FindIndex(old(products), p => HasId(p, id));
              if idx == -1 then r == None && products == old(products)
              else
                && r == Some(Merge(old(products)[idx], data, now))
                && products == old(products)[idx := r.value]
    {
      var idx := FindIndex(products, p => HasId(p, id));
      if idx == -1 {
        return None;
      }
      products := products[idx := Merge(products[idx], data, now)];
      r := Some(products[idx]);
    }

    /** `remove(id)`: every record with that id goes; the rest keep their
        order. */
    method Remove(id: string)
      modifies this
      ensures products == Filter(old(products), p => !HasId(p, id))
      ensures forall p :: p in products ==> !HasId(p, id)
      ensures IsSubsequence(products, old(products))
    {
      products := Filter(products, p => !HasId(p, id));
    }

    /** `bulkImport(rows)`: every row, in order, updates the first record
        with its SKU or is prepended; the count is the number of rows. */
    method BulkImport(rows: seq<Record>, now: string, uuid: nat -> string) returns (count: nat)
      modifies this
      ensures count == |rows|
      ensures products == ImportAll(old(products), rows, now, uuid)
    {
      var ps := products;
      count := 0;
      for i := 0 to |rows|
        invariant ps == ImportAll(old(products), rows[..i], now, uuid)
        invariant count == i
      {
        var row := rows[i];
        assert rows[..i + 1][..i] == rows[..i];
        var idx := FindIndex(ps, p => SkuMatch(p, row));
        if idx != -1 {
          ps := ps[idx := Merge(ps[idx], row, now)];
        } else {
          ps := [NewRecord(uuid(i), row, now)] + ps;
        }
        count := count + 1;
      }
      assert rows[..|rows|] == rows;
      products := ps;
    }
  }
}
