/**
 * `tme_api_call` (parteye.py:29-59): the TME API request, signed with
 * HMAC-SHA1 over an OAuth-like base string (compare section 3.4.1.1 of
 * RFC 5849). HMAC-SHA1 (RFC 2104) and Base64 (section 4 of RFC 4648) are
 * left uninterpreted, as functions the caller supplies; the HTTP POST is a
 * function from the request to the decoded reply.
 */
module Signer {
  import opened Wrappers
  import opened Text
  import opened Params
  import opened Percent

  /** The `[tme]` section of `config.ini`. */
  datatype TmeConfig = TmeConfig(token: string, secret: string)

  /** `hmac.new(key, msg, hashlib.sha1).digest()` and `base64.encodestring`. */
  datatype Crypto = Crypto(hmacSha1: (seq<Byte>, seq<Byte>) -> seq<Byte>, base64: seq<Byte> -> seq<Byte>)

  /** What `requests.post(api_url, params)` sends: the url and the form items, in order. */
  datatype Request = Request(url: string, form: seq<Item>)

  const TokenKey: string := "Token"
  const SignatureKey: string := "ApiSignature"

  /** `'https://api.tme.eu/' + action + '.json'` (parteye.py:37). */
  function ApiUrl(action: string): string {
    "https://api.tme.eu/" + action + ".json"
  }

  /** The items that get signed: the caller's dict with `Token` forced, sorted by key (parteye.py:38-41). */
  function SignedItems(items: seq<Item>, token: string): seq<Item> {
    SortByKey(Put(items, TokenKey, token))
  }

  /** `'POST&' + quote(api_url, '') + '&' + quote(urlencode(params, ''), '')` (parteye.py:42-44). */
  function SignatureBase(url: string, sorted: seq<Item>): string {
    "POST&" + Quote(url) + "&" + Quote(UrlEncode(sorted))
  }

  /** Bytes as the text of their code points; a Base64 digest is ASCII. */
  function Latin1(bs: seq<Byte>): (s: string)
    ensures |s| == |bs| && forall k | 0 <= k < |bs| :: s[k] as int == bs[k]
  {
    if bs == [] then [] else [bs[0] as char] + Latin1(bs[1..])
  }

  /**
   * `base64.encodestring(hmac(secret, base)).rstrip()` (parteye.py:46-49):
   * HMAC-SHA1 keyed with the UTF-8 secret over the UTF-8 base string, then
   * Base64 with its trailing white space dropped.
   */
  function Signature(cfg: TmeConfig, crypto: Crypto, base: string): (s: string)
    ensures var encoded := crypto.base64(crypto.hmacSha1(Utf8(cfg.secret), Utf8(base)));
      && |s| <= |encoded|
      && (forall k | 0 <= k < |s| :: s[k] as int == encoded[k])
      && (forall k | |s| <= k < |encoded| :: encoded[k] in {9, 10, 11, 12, 13, 32})
      && (s == [] || s[|s| - 1] as int !in {9, 10, 11, 12, 13, 32})
  {
    Latin1(RStripBytes(crypto.base64(crypto.hmacSha1(Utf8(cfg.secret), Utf8(base)))))
  }

  /** The request `tme_api_call` posts for a caller's dict. */
  function SignedRequest(action: string, items: seq<Item>, cfg: TmeConfig, crypto: Crypto): Request {
    var url := ApiUrl(action);
    var sorted := SignedItems(items, cfg.token);
    Request(url, Put(sorted, SignatureKey, Signature(cfg, crypto, SignatureBase(url, sorted))))
  }

  /**
   * `tme_api_call(action, params)`. The caller's dict receives `Token`; the
   * sorted copy the local name is rebound to (parteye.py:41) receives
   * `ApiSignature`, so the caller never sees the signature.
   */
  method TmeApiCall<R>(action: string, params: ParamMap, cfg: TmeConfig, crypto: Crypto, post: Request -> R)
    returns (reply: R, request: Request)
    requires params.Valid()
    modifies params
    ensures params.Valid()
    ensures params.items == Put(old(params.items), TokenKey, cfg.token)
    ensures request == SignedRequest(action, old(params.items), cfg, crypto)
    ensures reply == post(request)
  {
    var url := ApiUrl(action);
    params.Set(TokenKey, cfg.token);
    SortSorts(params.items);
    SortedDistinct(SortByKey(params.items));
    var sorted := new ParamMap(SortByKey(params.items));
    var encoded := UrlEncode(sorted.items);
    var base := "POST&" + Quote(url) + "&" + Quote(encoded);
    var signature := Signature(cfg, crypto, base);
    sorted.Set(SignatureKey, signature);
    request := Request(url, sorted.items);
    reply := post(request);
  }

  /** The signed items hold the configured token, every other key of the caller's dict, and are sorted. */
  lemma SignedItemsFacts(items: seq<Item>, token: string, k: string)
    requires DistinctKeys(items)
    ensures SortedByKey(SignedItems(items, token))
    ensures Lookup(SignedItems(items, token), TokenKey) == Some(token)
    ensures k != TokenKey ==> Lookup(SignedItems(items, token), k) == Lookup(items, k)
  {
    var put := Put(items, TokenKey, token);
    PutDistinct(items, TokenKey, token);
    PutLookup(items, TokenKey, token, k);
    SortSorts(put);
    SortLookup(put, TokenKey);
    SortLookup(put, k);
  }

  /** The base string opens with `POST&`, and its only `&` are the two separators. */
  lemma BaseShape(url: string, sorted: seq<Item>)
    ensures SignatureBase(url, sorted)[..5] == "POST&"
    ensures Split(SignatureBase(url, sorted), '&') == ["POST", Quote(url), Quote(UrlEncode(sorted))]
  {
    var q1 := Quote(url);
    var q2 := Quote(UrlEncode(sorted));
    QuoteEscapesDelimiters(url);
    QuoteEscapesDelimiters(UrlEncode(sorted));
    var base := SignatureBase(url, sorted);
    assert base == "POST" + ['&'] + (q1 + ['&'] + q2);
    SplitAtSeparator("POST", q1 + ['&'] + q2, '&');
    SplitAtSeparator(q1, q2, '&');
    SplitJoin([q2], '&');
  }

  /**
   * Outside the two separators every character of the base string is
   * unreserved or part of a `%XX` escape: its parts decode back to the url
   * and to the form body.
   */
  lemma BaseEncoded(url: string, sorted: seq<Item>)
    ensures Decode(Quote(url), false) == Some(Utf8(url))
    ensures Decode(Quote(UrlEncode(sorted)), false) == Some(Utf8(UrlEncode(sorted)))
    ensures forall c | c in SignatureBase(url, sorted) :: Unreserved(c) || c == '%' || c == '&'
  {
    QuoteEscapesDelimiters(url);
    QuoteEscapesDelimiters(UrlEncode(sorted));
    QuoteRoundTrip(url);
    QuoteRoundTrip(UrlEncode(sorted));
  }

  /**
   * The base string depends only on the keys other than `Token`: neither the
   * order in which the caller inserted its keys nor any `Token` it supplied
   * changes it (parteye.py:38-41).
   */
  lemma BaseIgnoresOrderAndToken(url: string, a: seq<Item>, b: seq<Item>, token: string)
    requires DistinctKeys(a) && DistinctKeys(b)
    requires forall k | k != TokenKey :: Lookup(a, k) == Lookup(b, k)
    ensures SignedItems(a, token) == SignedItems(b, token)
    ensures SignatureBase(url, SignedItems(a, token)) == SignatureBase(url, SignedItems(b, token))
  {
    var pa := Put(a, TokenKey, token);
    var pb := Put(b, TokenKey, token);
    PutDistinct(a, TokenKey, token);
    PutDistinct(b, TokenKey, token);
    forall k
      ensures Lookup(pa, k) == Lookup(pb, k)
    {
      PutLookup(a, TokenKey, token, k);
      PutLookup(b, TokenKey, token, k);
    }
    SortIgnoresInsertionOrder(pa, pb);
  }

  /**
   * `ApiSignature` is not signed: it is stored after the signature is
   * computed, over the signed items; every other key keeps its value; and
   * when the caller's dict has no `ApiSignature`, it goes last (parteye.py:46-50).
   */
  lemma SignatureAddedAfterSigning(action: string, items: seq<Item>, cfg: TmeConfig, crypto: Crypto, k: string)
    requires DistinctKeys(items)
    ensures var sorted := SignedItems(items, cfg.token);
      var sig := Signature(cfg, crypto, SignatureBase(ApiUrl(action), sorted));
      var form := SignedRequest(action, items, cfg, crypto).form;
      && Lookup(form, SignatureKey) == Some(sig)
      && (k != SignatureKey ==> Lookup(form, k) == Lookup(sorted, k))
      && (Lookup(items, SignatureKey).None? ==> form == sorted + [(SignatureKey, sig)])
  {
    var sorted := SignedItems(items, cfg.token);
    var sig := Signature(cfg, crypto, SignatureBase(ApiUrl(action), sorted));
    PutLookup(sorted, SignatureKey, sig, k);
    SignedItemsFacts(items, cfg.token, SignatureKey);
  }

  /**
   * A signed request goes to the action's url; its form maps `Token` to the
   * configured token, holds an `ApiSignature`, and maps every other key as
   * the caller's dict does.
   */
  lemma SignedRequestForm(action: string, items: seq<Item>, cfg: TmeConfig, crypto: Crypto, k: string)
    requires DistinctKeys(items)
    ensures var r := SignedRequest(action, items, cfg, crypto);
      && r.url == ApiUrl(action)
      && Lookup(r.form, TokenKey) == Some(cfg.token)
      && Lookup(r.form, SignatureKey).Some?
      && (k != TokenKey && k != SignatureKey ==> Lookup(r.form, k) == Lookup(items, k))
  {
    SignatureAddedAfterSigning(action, items, cfg, crypto, k);
    SignatureAddedAfterSigning(action, items, cfg, crypto, TokenKey);
    SignedItemsFacts(items, cfg.token, k);
  }

  /** The signature is computed over ASCII text, one byte per character. */
  lemma BaseIsAscii(url: string, sorted: seq<Item>)
    ensures IsAscii(SignatureBase(url, sorted))
    ensures |Utf8(SignatureBase(url, sorted))| == |SignatureBase(url, sorted)|
  {
    BaseEncoded(url, sorted);
    var base := SignatureBase(url, sorted);
    assert forall k | 0 <= k < |base| :: base[k] in base;
    Utf8OfAscii(base);
  }
}
