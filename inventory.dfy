/**
 * `insert_part`, `generate_footprint` and `upload_attachments`
 * (parteye.py:147-232): the PartKeepr side. Every PartKeepr HTTP call is
 * recorded as an `InvCall`; what the server answers is given by functions
 * of the request, and the `request.json` template and the clock reading by
 * values.
 */
module Inventory {
  import opened Wrappers
  import opened Catalog

  /** One `hydra:member` of a PartKeepr reply: its `@id` and the rest of the object. */
  datatype Member = Member(id: string, body: string)

  /** One entry of the template's `stockLevels`. */
  datatype StockEntry = StockEntry(stockLevel: string, rest: string)

  /** The part document posted to `/api/parts`: the fields `insert_part` sets and the rest of the template. */
  datatype PartDocument = PartDocument(
    name: string, description: string, stockLevels: seq<StockEntry>, createDate: string,
    footprint: Option<Member>, attachments: Option<seq<string>>, rest: string)

  /** The PartKeepr calls `pk_api_call` makes, in the order made. */
  datatype InvCall =
    | QueryParts(filter: string)
    | AddStock(path: string, quantity: string, comment: string)
    | QueryFootprints(filter: string)
    | UploadFile(url: string)
    | CreatePart(doc: PartDocument)

  /**
   * PartKeepr's answers (the members matching a filter; the `response` of an
   * upload), the `request.json` template and the formatted creation date.
   */
  datatype InventoryService = InventoryService(
    parts: string -> seq<Member>, footprints: string -> seq<Member>, upload: string -> string,
    template: PartDocument, now: string)

  datatype Outcome = StockAdded | Created(doc: PartDocument)

  /** `d["stockLevels"][0]` raises when the template has no stock level. */
  datatype InsertError = NoStockLevel

  /** The calls that change the inventory. */
  predicate IsWrite(c: InvCall) {
    c.AddStock? || c.CreatePart?
  }

  function Writes(calls: seq<InvCall>): (n: nat)
    ensures n <= |calls|
  {
    if calls == [] then 0 else (if IsWrite(calls[0]) then 1 else 0) + Writes(calls[1..])
  }

  lemma {:induction false} WritesAppend(a: seq<InvCall>, b: seq<InvCall>)
    ensures Writes(a + b) == Writes(a) + Writes(b)
  {
    if a != [] {
      WritesAppend(a[1..], b);
      assert (a + b)[1..] == a[1..] + b;
    } else {
      assert a + b == b;
    }
  }

  /** `'{"property":"name","operator":"=","value":"<name>"}'`, formatted with no escaping (parteye.py:157-158, 195-196). */
  function NameFilter(name: string): string {
    "{\"property\":\"name\",\"operator\":\"=\",\"value\":\"" + name + "\"}"
  }

  /** Different names give different filters. */
  lemma NameFilterInjective(a: string, b: string)
    requires NameFilter(a) == NameFilter(b)
    ensures a == b
  {
    var prefix := "{\"property\":\"name\",\"operator\":\"=\",\"value\":\"";
    var n := |prefix|;
    assert |a| == |b|;
    assert a == NameFilter(a)[n..n + |a|];
    assert b == NameFilter(b)[n..n + |b|];
  }

  /**
   * `generate_footprint(fp)`: no query for an empty case; otherwise one
   * footprint query by name, giving its first member if there is one.
   */
  function GenerateFootprint(fp: string, svc: InventoryService): (r: (Option<Member>, seq<InvCall>))
    ensures fp == "" ==> r == (None, [])
    ensures fp != "" ==> r.1 == [QueryFootprints(NameFilter(fp))]
    ensures fp != "" ==> (r.0.Some? <==> svc.footprints(NameFilter(fp)) != [])
    ensures r.0.Some? ==> r.0.value == svc.footprints(NameFilter(fp))[0]
  {
    if |fp| == 0 then (None, [])
    else
      var filter := NameFilter(fp);
      var members := svc.footprints(filter);
      (if |members| > 0 then Some(members[0]) else None, [QueryFootprints(filter)])
  }

  /** The `response` of each upload, one per file, in order. */
  function UploadTokens(files: seq<string>, upload: string -> string): (r: seq<string>)
    ensures |r| == |files|
    ensures forall i | 0 <= i < |files| :: r[i] == upload(files[i])
  {
    if files == [] then [] else UploadTokens(files[..|files| - 1], upload) + [upload(files[|files| - 1])]
  }

  /** One upload call per file, in order. */
  function UploadCalls(files: seq<string>): (r: seq<InvCall>)
    ensures |r| == |files|
    ensures forall i | 0 <= i < |files| :: r[i] == UploadFile(files[i])
    ensures Writes(r) == 0
  {
    if files == [] then []
    else
      var init := UploadCalls(files[..|files| - 1]);
      WritesAppend(init, [UploadFile(files[|files| - 1])]);
      init + [UploadFile(files[|files| - 1])]
  }

  /** What `upload_attachments` returns: `None` for no files, not an empty list. */
  function Attachments(files: seq<string>, upload: string -> string): Option<seq<string>> {
    if files == [] then None else Some(UploadTokens(files, upload))
  }

  /** `upload_attachments(files)` (parteye.py:169-184). */
  method UploadAttachments(files: seq<string>, svc: InventoryService) returns (uploads: Option<seq<string>>, calls: seq<InvCall>)
    ensures uploads == Attachments(files, svc.upload)
    ensures calls == UploadCalls(files)
  {
    var tokens: seq<string> := [];
    calls := [];
    if |files| > 0 {
      for i := 0 to |files|
        invariant tokens == UploadTokens(files[..i], svc.upload)
        invariant calls == UploadCalls(files[..i])
      {
        assert files[..i + 1][..i] == files[..i];
        calls := calls + [UploadFile(files[i])];
        tokens := tokens + [svc.upload(files[i])];
      }
      assert files[..|files|] == files;
      return Some(tokens), calls;
    }
    return None, calls;
  }

  /** The template with the part's name, description, stock, date, footprint and attachments filled in (parteye.py:220-226). */
  function FilledDocument(part: Part, svc: InventoryService, footprint: Option<Member>, attachments: Option<seq<string>>): PartDocument
    requires svc.template.stockLevels != []
  {
    var t := svc.template;
    t.(name := part.pn, description := part.desc,
       stockLevels := t.stockLevels[0 := t.stockLevels[0].(stockLevel := part.quantity)],
       createDate := svc.now, footprint := footprint, attachments := attachments)
  }

  /** What `insert_part(part)` does: the outcome and the PartKeepr calls, in order. */
  function Reconcile(part: Part, svc: InventoryService): (Result<Outcome, InsertError>, seq<InvCall>) {
    var filter := NameFilter(part.pn);
    var found := svc.parts(filter);
    if found != [] then
      (Success(StockAdded), [QueryParts(filter), AddStock(found[0].id + "/addStock", part.quantity, part.po)])
    else if svc.template.stockLevels == [] then
      (Failure(NoStockLevel), [QueryParts(filter)])
    else
      var (footprint, footprintCalls) := GenerateFootprint(part.caseName, svc);
      var doc := FilledDocument(part, svc, footprint, Attachments(part.files, svc.upload));
      (Success(Created(doc)), [QueryParts(filter)] + footprintCalls + UploadCalls(part.files) + [CreatePart(doc)])
  }

  /** `insert_part(part)` (parteye.py:187-232): looks the part up, then adds stock or fills in and posts the template. */
  method InsertPart(part: Part, svc: InventoryService) returns (result: Result<Outcome, InsertError>, calls: seq<InvCall>)
    ensures (result, calls) == Reconcile(part, svc)
  {
    var filter := NameFilter(part.pn);
    calls := [QueryParts(filter)];
    var found := svc.parts(filter);
    if |found| > 0 {
      calls := calls + [AddStock(found[0].id + "/addStock", part.quantity, part.po)];
      assert calls == [QueryParts(filter), AddStock(found[0].id + "/addStock", part.quantity, part.po)];
      return Success(StockAdded), calls;
    }

    var d := svc.template;
    d := d.(name := part.pn);
    d := d.(description := part.desc);
    if |d.stockLevels| == 0 {
      return Failure(NoStockLevel), calls;
    }
    d := d.(stockLevels := d.stockLevels[0 := d.stockLevels[0].(stockLevel := part.quantity)]);
    d := d.(createDate := svc.now);
    var (footprint, footprintCalls) := GenerateFootprint(part.caseName, svc);
    calls := calls + footprintCalls;
    d := d.(footprint := footprint);
    var attachments, uploadCalls := UploadAttachments(part.files, svc);
    calls := calls + uploadCalls;
    d := d.(attachments := attachments);

    calls := calls + [CreatePart(d)];
    result := Success(Created(d));
  }

  /**
   * Every insertion starts with the name query and changes the inventory
   * exactly once when it succeeds, with its last call; a failed one changes
   * nothing.
   */
  lemma ExactlyOneWrite(part: Part, svc: InventoryService)
    ensures var (result, calls) := Reconcile(part, svc);
      && calls != [] && calls[0] == QueryParts(NameFilter(part.pn))
      && (result.Success? ==> Writes(calls) == 1 && IsWrite(calls[|calls| - 1]))
      && (result.Failure? ==> Writes(calls) == 0)
  {
    var (result, calls) := Reconcile(part, svc);
    var filter := NameFilter(part.pn);
    if svc.parts(filter) == [] && svc.template.stockLevels != [] {
      var (footprint, footprintCalls) := GenerateFootprint(part.caseName, svc);
      var doc := FilledDocument(part, svc, footprint, Attachments(part.files, svc.upload));
      var head := [QueryParts(filter)] + footprintCalls;
      assert Writes(head) == 0 by {
        WritesAppend([QueryParts(filter)], footprintCalls);
        assert Writes([QueryParts(filter)]) == 0;
        if footprintCalls != [] {
          assert Writes(footprintCalls) == Writes(footprintCalls[1..]);
        }
      }
      WritesAppend(head, UploadCalls(part.files));
      WritesAppend(head + UploadCalls(part.files), [CreatePart(doc)]);
      assert Writes([CreatePart(doc)]) == 1;
    } else if svc.parts(filter) != [] {
      assert Writes(calls) == Writes(calls[1..]);
      assert Writes(calls[1..]) == 1 + Writes(calls[2..]);
    } else {
      assert Writes(calls) == Writes(calls[1..]);
    }
  }

  /**
   * A name query with at least one member adds stock to the first member,
   * with the scanned quantity and the order number as comment, and nothing
   * else follows.
   */
  lemma StockAddedWhenFound(part: Part, svc: InventoryService)
    ensures var (result, calls) := Reconcile(part, svc);
      var found := svc.parts(NameFilter(part.pn));
      && (found != [] <==> result == Success(StockAdded))
      && (found != [] ==> calls == [QueryParts(NameFilter(part.pn)),
            AddStock(found[0].id + "/addStock", part.quantity, part.po)])
  {
  }

  /**
   * An empty name query creates the part from the template: name, description,
   * first stock level, creation date, footprint (the first footprint found by
   * name, `None` for no case) and attachments (`None` for no files, otherwise
   * one upload per file) filled in, everything else as in the template. The
   * calls are the name query, the footprint query, the uploads, then the post.
   */
  lemma CreatedDocument(part: Part, svc: InventoryService)
    requires svc.parts(NameFilter(part.pn)) == []
    ensures var (result, calls) := Reconcile(part, svc);
      && (result.Failure? <==> svc.template.stockLevels == [])
      && (result.Success? ==>
        var t := svc.template;
        && result.value.Created?
        && var doc := result.value.doc;
        && calls == [QueryParts(NameFilter(part.pn))] + GenerateFootprint(part.caseName, svc).1
             + UploadCalls(part.files) + [CreatePart(doc)]
        && doc.name == part.pn && doc.description == part.desc
        && |doc.stockLevels| == |t.stockLevels|
        && doc.stockLevels[0] == t.stockLevels[0].(stockLevel := part.quantity)
        && doc.stockLevels[1..] == t.stockLevels[1..]
        && doc.createDate == svc.now
        && doc.footprint == GenerateFootprint(part.caseName, svc).0
        && (part.caseName == "" ==> doc.footprint == None)
        && (doc.attachments == None <==> part.files == [])
        && (doc.attachments != None ==> doc.attachments.value == UploadTokens(part.files, svc.upload))
        && doc.rest == t.rest)
  {
  }
}
