/**
 * The store page URL the export starts from (menu_export.py,
 * `get_uuids_from_url`): the tenant's origin is the third `/`-separated
 * piece behind `https://`, the store's uuid the fifth piece.
 */
module Urls {
  import opened Wrappers
  import opened Texts

  const Scheme: string := "https://"

  /** `'https://{}'.format(url.split('/')[2])`, or `None` where the index fails. */
  function TenantOrigin(url: string): (r: Option<string>)
    ensures r.Some? <==> |Split(url, '/')| >= 3
  {
    var parts := Split(url, '/');
    if |parts| < 3 then None else Some(Scheme + parts[2])
  }

  /** `url.split('/')[4]`, or `None` where the index fails. */
  function StoreUuid(url: string): (r: Option<string>)
    ensures r.Some? <==> |Split(url, '/')| >= 5
  {
    var parts := Split(url, '/');
    if |parts| < 5 then None else Some(parts[4])
  }

  /** A piece without `/` in front of a `/` is the first piece of the split. */
  lemma SplitFirst(a: string, b: string)
    requires '/' !in a
    ensures Split(a + "/" + b, '/') == [a] + Split(b, '/')
  {
    SplitConcat(a, b, '/');
    SplitFree(a, '/');
  }

  /** Five pieces without `/`, each followed by a `/`, split off the front of a string. */
  lemma FivePieces(p0: string, p1: string, p2: string, p3: string, p4: string, rest: string)
    requires '/' !in p0 && '/' !in p1 && '/' !in p2 && '/' !in p3 && '/' !in p4
    ensures Split(p0 + "/" + (p1 + "/" + (p2 + "/" + (p3 + "/" + (p4 + "/" + rest)))), '/')
         == [p0, p1, p2, p3, p4] + Split(rest, '/')
  {
    SplitFirst(p4, rest);
    SplitFirst(p3, p4 + "/" + rest);
    SplitFirst(p2, p3 + "/" + (p4 + "/" + rest));
    SplitFirst(p1, p2 + "/" + (p3 + "/" + (p4 + "/" + rest)));
    SplitFirst(p0, p1 + "/" + (p2 + "/" + (p3 + "/" + (p4 + "/" + rest))));
  }

  /** Five pieces without `/`, joined by `/`, split apart again. */
  lemma FivePiecesOnly(p0: string, p1: string, p2: string, p3: string, p4: string)
    requires '/' !in p0 && '/' !in p1 && '/' !in p2 && '/' !in p3 && '/' !in p4
    ensures Split(p0 + "/" + (p1 + "/" + (p2 + "/" + (p3 + "/" + p4))), '/') == [p0, p1, p2, p3, p4]
  {
    SplitFree(p4, '/');
    SplitFirst(p3, p4);
    SplitFirst(p2, p3 + "/" + p4);
    SplitFirst(p1, p2 + "/" + (p3 + "/" + p4));
    SplitFirst(p0, p1 + "/" + (p2 + "/" + (p3 + "/" + p4)));
  }

  /** The pieces of `https://<host>/store/<store>`, with nothing after the store uuid. */
  lemma StoreRootPieces(host: string, store: string)
    requires '/' !in host && '/' !in store
    ensures Split(Scheme + host + "/store/" + store, '/') == ["https:", "", host, "store", store]
  {
    FivePiecesOnly("https:", "", host, "store", store);
    assert Scheme + host + "/store/" + store
        == "https:" + "/" + ("" + "/" + (host + "/" + ("store" + "/" + store)));
  }

  /** For `https://<host>/store/<store>` the origin is `https://<host>` and the store uuid is `<store>`. */
  lemma StoreRoot(host: string, store: string)
    requires '/' !in host && '/' !in store
    ensures var url := Scheme + host + "/store/" + store;
      TenantOrigin(url) == Some(Scheme + host) && StoreUuid(url) == Some(store)
  {
    StoreRootPieces(host, store);
  }

  /** The pieces of `https://<host>/store/<store>/<rest>`. */
  lemma StorePagePieces(host: string, store: string, rest: string)
    requires '/' !in host && '/' !in store
    ensures Split(Scheme + host + "/store/" + store + "/" + rest, '/')
         == ["https:", "", host, "store", store] + Split(rest, '/')
  {
    FivePieces("https:", "", host, "store", store, rest);
    assert Scheme + host + "/store/" + store + "/" + rest
        == "https:" + "/" + ("" + "/" + (host + "/" + ("store" + "/" + (store + "/" + rest))));
  }

  /**
   * For a store page URL `https://<host>/store/<store>/<rest>` the origin is
   * `https://<host>` and the store uuid is `<store>`, whatever `<rest>` is.
   */
  lemma StorePage(host: string, store: string, rest: string)
    requires '/' !in host && '/' !in store
    ensures var url := Scheme + host + "/store/" + store + "/" + rest;
      TenantOrigin(url) == Some(Scheme + host) && StoreUuid(url) == Some(store)
  {
    StorePagePieces(host, store, rest);
  }
}
