/**
 * `parse_tme` (parteye.py:96-144): the part record built from a scanned
 * line and three TME API replies (description, parameters, documents).
 * Only the fields of a reply the code reads are modelled.
 */
module Catalog {
  import opened Wrappers
  import opened Params
  import opened ScanLine
  import opened Signer

  /** One entry of `ParameterList`. */
  datatype Parameter = Parameter(id: string, value: string)

  /** One entry of `Data.ProductList`: its `Description`, `ParameterList` and the `DocumentUrl`s of `Files.DocumentList`. */
  datatype Product = Product(description: string, parameters: seq<Parameter>, documentUrls: seq<string>)

  /** The TME account and `requests.post` with `.json()`, as the `ProductList` of the reply to a request. */
  datatype TmeService = TmeService(config: TmeConfig, crypto: Crypto, post: Request -> seq<Product>)

  /** The `part` dict of `parse_tme`. */
  datatype Part = Part(pn: string, quantity: string, po: string, desc: string, caseName: string, files: seq<string>)

  /** The three TME API actions `parse_tme` calls. */
  datatype Action = GetProducts | GetParameters | GetProductsFiles

  /** The action's path after the API domain (parteye.py:125, 129, 136). */
  function ActionPath(a: Action): string {
    match a
    case GetProducts => "Products/GetProducts"
    case GetParameters => "Products/GetParameters"
    case GetProductsFiles => "Products/GetProductsFiles"
  }

  /** Why `parse_tme` raises: a field missing or without a value, or a reply with no product 0. */
  datatype LookupError = BadFields(error: FieldError) | NoProduct(action: Action)

  /** The ids of the case parameter (parteye.py:132). */
  predicate IsCaseParameter(p: Parameter) {
    p.id == "35" || p.id == "2932"
  }

  /** The case the loop at parteye.py:131-133 leaves: that of the last case parameter, else `''`. */
  function LastCase(ps: seq<Parameter>): string {
    if ps == [] then ""
    else if IsCaseParameter(ps[|ps| - 1]) then ps[|ps| - 1].value
    else LastCase(ps[..|ps| - 1])
  }

  /** With a case parameter at `i` and none after it, the case is the value at `i`. */
  lemma {:induction false} LastCaseIsLastMatch(ps: seq<Parameter>, i: nat)
    requires i < |ps| && IsCaseParameter(ps[i])
    requires forall j | i < j < |ps| :: !IsCaseParameter(ps[j])
    ensures LastCase(ps) == ps[i].value
    decreases |ps|
  {
    if i < |ps| - 1 {
      LastCaseIsLastMatch(ps[..|ps| - 1], i);
    }
  }

  /** Without a case parameter the case stays `''`; otherwise it is the value of one that has none after it. */
  lemma {:induction false} LastCaseCases(ps: seq<Parameter>)
    ensures (forall j | 0 <= j < |ps| :: !IsCaseParameter(ps[j])) ==> LastCase(ps) == ""
    ensures (exists j | 0 <= j < |ps| :: IsCaseParameter(ps[j])) ==>
      exists i | 0 <= i < |ps| :: IsCaseParameter(ps[i]) && LastCase(ps) == ps[i].value
        && forall j | i < j < |ps| :: !IsCaseParameter(ps[j])
    decreases |ps|
  {
    if ps != [] {
      var init := ps[..|ps| - 1];
      LastCaseCases(init);
      if !IsCaseParameter(ps[|ps| - 1]) {
        assert forall j | 0 <= j < |init| :: init[j] == ps[j];
      } else {
        var n := |ps| - 1;
        assert IsCaseParameter(ps[n]) && LastCase(ps) == ps[n].value;
      }
    }
  }

  /** The loop of parteye.py:131-133: later case parameters overwrite earlier ones. */
  method FootprintCase(ps: seq<Parameter>) returns (caseName: string)
    ensures caseName == LastCase(ps)
  {
    caseName := "";
    for i := 0 to |ps|
      invariant caseName == LastCase(ps[..i])
    {
      assert ps[..i + 1][..i] == ps[..i];
      if ps[i].id == "35" || ps[i].id == "2932" {
        caseName := ps[i].value;
      }
    }
    assert ps[..|ps|] == ps;
  }

  /** `url[-3:]`: the last three characters, or all of a shorter text. */
  function LastThree(u: string): string {
    if |u| >= 3 then u[|u| - 3..] else u
  }

  /** `d["DocumentUrl"][-3:] == "pdf"`: case-sensitive, no dot required. */
  predicate IsPdfUrl(u: string) {
    LastThree(u) == "pdf"
  }

  /** The links the loop at parteye.py:138-140 appends, in document order. */
  function PdfLinks(urls: seq<string>): seq<string> {
    if urls == [] then []
    else PdfLinks(urls[..|urls| - 1]) + (if IsPdfUrl(urls[|urls| - 1]) then ["https:" + urls[|urls| - 1]] else [])
  }

  /** A link is collected exactly when it is `https:` in front of a url ending in `pdf`. */
  lemma {:induction false} PdfLinksMembers(urls: seq<string>, x: string)
    ensures x in PdfLinks(urls) <==> exists u | u in urls :: IsPdfUrl(u) && x == "https:" + u
    decreases |urls|
  {
    if urls != [] {
      var init := urls[..|urls| - 1];
      PdfLinksMembers(init, x);
      assert urls == init + [urls[|urls| - 1]];
      assert forall u | u in urls :: u in init || u == urls[|urls| - 1];
    }
  }

  /** The loop of parteye.py:138-140. */
  method CollectPdfLinks(urls: seq<string>) returns (files: seq<string>)
    ensures files == PdfLinks(urls)
  {
    files := [];
    for i := 0 to |urls|
      invariant files == PdfLinks(urls[..i])
    {
      assert urls[..i + 1][..i] == urls[..i];
      if LastThree(urls[i]) == "pdf" {
        files := files + ["https:" + urls[i]];
      }
    }
    assert urls[..|urls|] == urls;
  }

  predicate NoDuplicates(xs: seq<string>) {
    forall i, j | 0 <= i < j < |xs| :: xs[i] != xs[j]
  }

  /** `list(set(xs))`: the same elements, each once (kept here in order of first occurrence). */
  function Dedup(xs: seq<string>): (r: seq<string>)
    ensures NoDuplicates(r)
    ensures forall x :: x in r <==> x in xs
  {
    if xs == [] then []
    else
      var d := Dedup(xs[..|xs| - 1]);
      var last := xs[|xs| - 1];
      assert xs == xs[..|xs| - 1] + [last];
      if last in d then d else d + [last]
  }

  /** `{'SymbolList[0]': PN, 'Country': 'ES', 'Language': 'EN'}` (parteye.py:119). */
  function QueryItems(pn: string): (items: seq<Item>)
    ensures DistinctKeys(items)
  {
    [("SymbolList[0]", pn), ("Country", "ES"), ("Language", "EN")]
  }

  /** The three requests `parse_tme` makes for a PN, with the dict's `Token` set by the first. */
  function Requests(first: seq<Item>, svc: TmeService): seq<Request> {
    var later := Put(first, TokenKey, svc.config.token);
    [SignedRequest(ActionPath(GetProducts), first, svc.config, svc.crypto),
     SignedRequest(ActionPath(GetParameters), later, svc.config, svc.crypto),
     SignedRequest(ActionPath(GetProductsFiles), later, svc.config, svc.crypto)]
  }

  /**
   * The rest of `parse_tme` once PN, Quantity and PO are known: the replies
   * to the three requests `rq`, and the requests made before returning or
   * raising.
   */
  function Enrich(f: ScanFields, rq: seq<Request>, svc: TmeService): (Result<Part, LookupError>, seq<Request>)
    requires |rq| == 3
  {
    var products := svc.post(rq[0]);
    if products == [] then (Failure(NoProduct(GetProducts)), [rq[0]])
    else
      var parameters := svc.post(rq[1]);
      if parameters == [] then (Failure(NoProduct(GetParameters)), [rq[0], rq[1]])
      else
        var documents := svc.post(rq[2]);
        if documents == [] then (Failure(NoProduct(GetProductsFiles)), rq)
        else
          var part := Part(f.pn, f.quantity, f.po, products[0].description,
            LastCase(parameters[0].parameters), Dedup(PdfLinks(documents[0].documentUrls)));
          (Success(part), rq)
  }

  /** What `parse_tme` returns for the space-split fields of a line, and the requests it made. */
  function LookupPart(fields: seq<string>, svc: TmeService): (Result<Part, LookupError>, seq<Request>) {
    match ExtractFields(fields)
    case Failure(e) => (Failure(BadFields(e)), [])
    case Success(f) => Enrich(f, Requests(QueryItems(f.pn), svc), svc)
  }

  /** `parse_tme(fields)`. */
  method ParseTme(fields: seq<string>, svc: TmeService) returns (result: Result<Part, LookupError>, requests: seq<Request>)
    ensures (result, requests) == LookupPart(fields, svc)
  {
    var extracted := ExtractFields(fields);
    if extracted.Failure? {
      return Failure(BadFields(extracted.error)), [];
    }
    var f := extracted.value;
    result, requests := EnrichPart(f, QueryItems(f.pn), svc);
  }

  /** parteye.py:119-144: fills the `part` dict step by step from the three replies. */
  method EnrichPart(f: ScanFields, items: seq<Item>, svc: TmeService) returns (result: Result<Part, LookupError>, requests: seq<Request>)
    requires DistinctKeys(items)
    ensures (result, requests) == Enrich(f, Requests(items, svc), svc)
  {
    var part := Part(f.pn, f.quantity, f.po, "", "", []);
    var params := new ParamMap(items);

    var products, rq1 := TmeApiCall(ActionPath(GetProducts), params, svc.config, svc.crypto, svc.post);
    if |products| == 0 {
      return Failure(NoProduct(GetProducts)), [rq1];
    }
    part := part.(desc := products[0].description);

    var parameters, rq2 := TmeApiCall(ActionPath(GetParameters), params, svc.config, svc.crypto, svc.post);
    if |parameters| == 0 {
      return Failure(NoProduct(GetParameters)), [rq1, rq2];
    }
    var caseName := FootprintCase(parameters[0].parameters);
    part := part.(caseName := caseName);

    PutTwice(items, TokenKey, svc.config.token);
    var documents, rq3 := TmeApiCall(ActionPath(GetProductsFiles), params, svc.config, svc.crypto, svc.post);
    requests := [rq1, rq2, rq3];
    if |documents| == 0 {
      return Failure(NoProduct(GetProductsFiles)), requests;
    }
    var files := CollectPdfLinks(documents[0].documentUrls);
    part := part.(files := Dedup(files));
    result := Success(part);
  }

  /** Putting the token a second time changes nothing: all three requests sign the caller's items as the first does. */
  lemma RequestsSignSameItems(items: seq<Item>, svc: TmeService)
    ensures Requests(items, svc) == [
      SignedRequest(ActionPath(GetProducts), items, svc.config, svc.crypto),
      SignedRequest(ActionPath(GetParameters), items, svc.config, svc.crypto),
      SignedRequest(ActionPath(GetProductsFiles), items, svc.config, svc.crypto)]
  {
    PutTwice(items, TokenKey, svc.config.token);
  }

  /**
   * Once PN, Quantity and PO are known, a part is found exactly when every
   * reply lists a product; it then carries those fields, product 0's
   * description, the last case parameter's value, and each `https:` link of
   * a `pdf` document exactly once.
   */
  lemma EnrichContents(f: ScanFields, rq: seq<Request>, svc: TmeService)
    requires |rq| == 3
    ensures var (result, requests) := Enrich(f, rq, svc);
      && (result.Success? <==> svc.post(rq[0]) != [] && svc.post(rq[1]) != [] && svc.post(rq[2]) != [])
      && (result.Success? ==>
        var p := result.value;
        && requests == rq
        && p.pn == f.pn && p.quantity == f.quantity && p.po == f.po
        && p.desc == svc.post(rq[0])[0].description
        && p.caseName == LastCase(svc.post(rq[1])[0].parameters)
        && NoDuplicates(p.files)
        && forall x :: x in p.files <==>
          exists u | u in svc.post(rq[2])[0].documentUrls :: IsPdfUrl(u) && x == "https:" + u)
  {
    var (result, requests) := Enrich(f, rq, svc);
    if result.Success? {
      var docs := svc.post(requests[2])[0].documentUrls;
      forall x
        ensures x in result.value.files <==> exists u | u in docs :: IsPdfUrl(u) && x == "https:" + u
      {
        PdfLinksMembers(docs, x);
      }
    }
  }

  /**
   * A lookup fails only for want of a product, after at least one request:
   * the first reply without a product names its action, and no request
   * follows it.
   */
  lemma EnrichFailsForNoProduct(f: ScanFields, rq: seq<Request>, svc: TmeService)
    requires |rq| == 3
    ensures Enrich(f, rq, svc).0.Failure? ==> Enrich(f, rq, svc).0.error.NoProduct?
    ensures |Enrich(f, rq, svc).1| >= 1
    ensures var (result, requests) := Enrich(f, rq, svc);
      && (svc.post(rq[0]) == [] ==>
            result == Failure(NoProduct(GetProducts)) && requests == rq[..1])
      && (svc.post(rq[0]) != [] && svc.post(rq[1]) == [] ==>
            result == Failure(NoProduct(GetParameters)) && requests == rq[..2])
      && (svc.post(rq[0]) != [] && svc.post(rq[1]) != [] && svc.post(rq[2]) == [] ==>
            result == Failure(NoProduct(GetProductsFiles)) && requests == rq)
  {
    assert rq[..1] == [rq[0]] && rq[..2] == [rq[0], rq[1]];
  }

  /** A line's fields fail before any request exactly when PN, Quantity or PO cannot be extracted. */
  lemma LookupPartFields(fields: seq<string>, svc: TmeService)
    ensures var (result, requests) := LookupPart(fields, svc);
      && (ExtractFields(fields).Failure? <==> result.Failure? && result.error.BadFields?)
      && (ExtractFields(fields).Failure? <==> requests == [])
      && (ExtractFields(fields).Failure? ==> result.error.error == ExtractFields(fields).error)
  {
    if ExtractFields(fields).Success? {
      var f := ExtractFields(fields).value;
      EnrichFailsForNoProduct(f, Requests(QueryItems(f.pn), svc), svc);
    }
  }

  /** The query dict maps `SymbolList[0]` to the part number, `Country` to `ES`, `Language` to `EN`. */
  lemma QueryItemsLookup(pn: string)
    ensures Lookup(QueryItems(pn), "SymbolList[0]") == Some(pn)
    ensures Lookup(QueryItems(pn), "Country") == Some("ES")
    ensures Lookup(QueryItems(pn), "Language") == Some("EN")
    ensures Lookup(QueryItems(pn), TokenKey) == None
  {
    var items := QueryItems(pn);
    assert items[0].0[0] != TokenKey[0] && items[1].0[0] != TokenKey[0] && items[2].0[0] != TokenKey[0];
  }

}
