/**
 * The three route handlers of backend/server.js, run against the Redis
 * double. The store holds `short:<code>` -> long URL, `url:<longUrl>` -> code
 * and `stats:<code>` -> visit counter. validator.isURL is the parameter
 * `isUrl`; the code nanoid(6) would generate is the parameter `code`.
 */
module LinkServer {
  import opened Wrappers
  import opened JsValues
  import opened RedisDouble

  function ShortKey(code: string): string { "short:" + code }
  function UrlKey(longUrl: string): string { "url:" + longUrl }
  function StatsKey(code: string): string { "stats:" + code }

  const INVALID_URL := "URL invalid (pune http:// sau https://)"
  const ALREADY_EXISTS := "Deja exista"
  const NOT_FOUND := "Nu a fost g\U{0103}sit"
  const NO_SUCH_CODE := "URL Scurt Inexistent"

  /** The JSON bodies the handlers send. */
  datatype Payload =
    | Shortened(shortCode: Value, msg: Option<string>)
    | Error(error: string)
    | Stats(longUrl: Value, visits: Value)

  datatype Reply =
    | Json(status: int, body: Payload)
    | Found(location: Value)          // res.redirect: 302
    | Text(status: int, text: string)

  /** A reply together with the store it leaves behind. */
  datatype Handled = Handled(reply: Reply, store: map<string, Value>)

  function Lookup(store: map<string, Value>, key: string): Option<Value> {
    if key in store then Some(store[key]) else None
  }

  /** The three key spaces never meet. */
  lemma KeySpacesDisjoint(a: string, b: string)
    ensures ShortKey(a) != UrlKey(b) && ShortKey(a) != StatsKey(b) && UrlKey(a) != StatsKey(b)
  {
    assert ShortKey(a)[0] == 's' && UrlKey(b)[0] == 'u';
    assert ShortKey(a)[1] == 'h' && StatsKey(b)[1] == 't';
    assert UrlKey(a)[0] == 'u' && StatsKey(b)[0] == 's';
  }

  /** Within a key space, the key determines the code or URL. */
  lemma KeysInjective(a: string, b: string)
    ensures ShortKey(a) == ShortKey(b) ==> a == b
    ensures UrlKey(a) == UrlKey(b) ==> a == b
    ensures StatsKey(a) == StatsKey(b) ==> a == b
  {
    assert ShortKey(a)[6..] == a && ShortKey(b)[6..] == b;
    assert UrlKey(a)[4..] == a && UrlKey(b)[4..] == b;
    assert StatsKey(a)[6..] == a && StatsKey(b)[6..] == b;
  }

  /** POST /api/shorten, on the store's contents. */
  function ShortenSpec(store: map<string, Value>, longUrl: string, validUrl: bool, code: string): Handled {
    if !validUrl then
      Handled(Json(400, Error(INVALID_URL)), store)
    else if Present(Lookup(store, UrlKey(longUrl))) then
      Handled(Json(200, Shortened(store[UrlKey(longUrl)], Some(ALREADY_EXISTS))), store)
    else
      Handled(Json(200, Shortened(Str(code), None)),
              store[ShortKey(code) := Str(longUrl)][UrlKey(longUrl) := Str(code)][StatsKey(code) := Num(0)])
  }

  /** GET /api/stats/:code, on the store's contents. */
  function StatsSpec(store: map<string, Value>, code: string): Reply {
    var longUrl := Lookup(store, ShortKey(code));
    var visits := Lookup(store, StatsKey(code));
    if !Present(longUrl) then Json(404, Error(NOT_FOUND))
    else Json(200, Stats(longUrl.value, if Present(visits) then visits.value else Num(0)))
  }

  /** GET /:code, on the store's contents. */
  function RedirectSpec(store: map<string, Value>, code: string): Handled {
    var longUrl := Lookup(store, ShortKey(code));
    if Present(longUrl) then
      var visits := IncrResult(Lookup(store, StatsKey(code)));
      Handled(Found(longUrl.value), store[StatsKey(code) := Str(NumberText(visits))])
    else
      Handled(Text(404, NO_SUCH_CODE), store)
  }

  /** The keys of `keys` that `store` does not hold yet, in order: what a run of sets appends to the key order. */
  function NewKeys(store: map<string, Value>, keys: seq<string>): seq<string> {
    if keys == [] then []
    else NewKeys(store, keys[..|keys| - 1]) + (if keys[|keys| - 1] in store then [] else [keys[|keys| - 1]])
  }

  /** POST /api/shorten: validate, reuse the code already stored for the URL, or create three keys. */
  method Shorten(db: FakeRedis, longUrl: string, isUrl: string -> bool, code: string) returns (reply: Reply)
    requires db.Valid()
    modifies db
    ensures db.Valid()
    ensures Handled(reply, db.store) == ShortenSpec(old(db.store), longUrl, isUrl(longUrl), code)
    ensures db.storeOrder ==
            if isUrl(longUrl) && !Present(Lookup(old(db.store), UrlKey(longUrl))) then
              old(db.storeOrder) + NewKeys(old(db.store), [ShortKey(code), UrlKey(longUrl), StatsKey(code)])
            else old(db.storeOrder)
    ensures db.sets == old(db.sets) && db.lists == old(db.lists)
  {
    if !isUrl(longUrl) {
      return Json(400, Error(INVALID_URL));
    }
    var existingCode := db.Get(UrlKey(longUrl));
    if existingCode.Some? && Truthy(existingCode.value) {
      return Json(200, Shortened(existingCode.value, Some(ALREADY_EXISTS)));
    }
    reply := CreateLink(db, longUrl, code);
  }

  /** The create path of POST /api/shorten: three sets, in this order. */
  method CreateLink(db: FakeRedis, longUrl: string, code: string) returns (reply: Reply)
    requires db.Valid()
    modifies db
    ensures db.Valid()
    ensures reply == Json(200, Shortened(Str(code), None))
    ensures db.store == old(db.store)[ShortKey(code) := Str(longUrl)][UrlKey(longUrl) := Str(code)][StatsKey(code) := Num(0)]
    ensures db.storeOrder == old(db.storeOrder) + NewKeys(old(db.store), [ShortKey(code), UrlKey(longUrl), StatsKey(code)])
    ensures db.sets == old(db.sets) && db.lists == old(db.lists)
  {
    KeySpacesDisjoint(code, longUrl);
    KeySpacesDisjoint(longUrl, code);
    KeySpacesDisjoint(code, code);
    SetThree(db, ShortKey(code), Str(longUrl), UrlKey(longUrl), Str(code), StatsKey(code), Num(0));
    reply := Json(200, Shortened(Str(code), None));
  }

  /** Two sets of distinct keys, in order. */
  method SetTwo(db: FakeRedis, a: string, va: Value, b: string, vb: Value)
    requires db.Valid() && a != b
    modifies db
    ensures db.Valid()
    ensures db.store == old(db.store)[a := va][b := vb]
    ensures db.storeOrder == old(db.storeOrder) + NewKeys(old(db.store), [a, b])
    ensures db.sets == old(db.sets) && db.lists == old(db.lists)
  {
    assert [a, b][..1] == [a] && [a][..0] == [];
    assert NewKeys(db.store, [a]) == if a in db.store then [] else [a];
    ghost var added := NewKeys(db.store, [a, b]);
    assert added == NewKeys(db.store, [a]) + if b in db.store then [] else [b];
    var ok := db.Set(a, va);
    ok := db.Set(b, vb);
  }

  /** Three sets of distinct keys, in order. */
  method SetThree(db: FakeRedis, a: string, va: Value, b: string, vb: Value, c: string, vc: Value)
    requires db.Valid() && a != b && a != c && b != c
    modifies db
    ensures db.Valid()
    ensures db.store == old(db.store)[a := va][b := vb][c := vc]
    ensures db.storeOrder == old(db.storeOrder) + NewKeys(old(db.store), [a, b, c])
    ensures db.sets == old(db.sets) && db.lists == old(db.lists)
  {
    assert [a, b, c][..2] == [a, b];
    ghost var store0 := db.store;
    ghost var added := NewKeys(store0, [a, b, c]);
    assert added == NewKeys(store0, [a, b]) + if c in store0 then [] else [c];
    SetTwo(db, a, va, b, vb);
    assert c in db.store <==> c in store0;
    var ok := db.Set(c, vc);
  }

  /** GET /api/stats/:code: read-only lookup of the long URL and the counter. */
  method GetStats(db: FakeRedis, code: string) returns (reply: Reply)
    ensures reply == StatsSpec(db.store, code)
    ensures reply.status == 404 <==> !Present(Lookup(db.store, ShortKey(code)))
    ensures reply.status == 200 ==> reply.body.longUrl == db.store[ShortKey(code)]
  {
    var longUrl := db.Get(ShortKey(code));
    var visits := db.Get(StatsKey(code));
    if !(longUrl.Some? && Truthy(longUrl.value)) {
      return Json(404, Error(NOT_FOUND));
    }
    reply := Json(200, Stats(longUrl.value, if visits.Some? && Truthy(visits.value) then visits.value else Num(0)));
  }

  /** GET /:code: count the visit and redirect, or 404. */
  method Redirect(db: FakeRedis, code: string) returns (reply: Reply)
    requires db.Valid()
    modifies db
    ensures db.Valid()
    ensures Handled(reply, db.store) == RedirectSpec(old(db.store), code)
    ensures db.storeOrder ==
            if Present(Lookup(old(db.store), ShortKey(code))) && StatsKey(code) !in old(db.store) then
              old(db.storeOrder) + [StatsKey(code)]
            else old(db.storeOrder)
    ensures db.sets == old(db.sets) && db.lists == old(db.lists)
  {
    var longUrl := db.Get(ShortKey(code));
    if longUrl.Some? && Truthy(longUrl.value) {
      var _ := db.Incr(StatsKey(code));
      reply := Found(longUrl.value);
    } else {
      reply := Text(404, NO_SUCH_CODE);
    }
  }

  /**
   * The link invariant: every `url:` entry names a code whose `short:` entry
   * holds that URL and whose counter exists.
   */
  ghost predicate Consistent(store: map<string, Value>) {
    forall u :: UrlKey(u) in store && store[UrlKey(u)].Str? ==>
      var c := store[UrlKey(u)].s;
      ShortKey(c) in store && store[ShortKey(c)] == Str(u) && StatsKey(c) in store
  }

  /**
   * The three outcomes of POST /api/shorten: an invalid URL is refused with
   * 400, a URL already shortened gets its stored code back, and a new URL
   * gets three new keys, after which short[url[longUrl]] is longUrl.
   */
  lemma ShortenOutcomes(store: map<string, Value>, longUrl: string, validUrl: bool, code: string)
    ensures var h := ShortenSpec(store, longUrl, validUrl, code);
      && (!validUrl ==> h.reply == Json(400, Error(INVALID_URL)) && h.store == store)
      && (validUrl && Present(Lookup(store, UrlKey(longUrl))) ==>
            h.reply == Json(200, Shortened(store[UrlKey(longUrl)], Some(ALREADY_EXISTS))) && h.store == store)
      && (validUrl && !Present(Lookup(store, UrlKey(longUrl))) ==>
            && h.reply == Json(200, Shortened(Str(code), None))
            && h.store[ShortKey(code)] == Str(longUrl)
            && h.store[UrlKey(longUrl)] == Str(code)
            && h.store[StatsKey(code)] == Num(0)
            && h.store[ShortKey(h.store[UrlKey(longUrl)].s)] == Str(longUrl)
            && h.store.Keys == store.Keys + {ShortKey(code), UrlKey(longUrl), StatsKey(code)}
            && (forall k :: k in store && k != ShortKey(code) && k != UrlKey(longUrl) && k != StatsKey(code) ==>
                  h.store[k] == store[k]))
  {
    KeySpacesDisjoint(code, longUrl);
    KeySpacesDisjoint(longUrl, code);
    KeySpacesDisjoint(code, code);
  }

  /** Shortening the same valid URL twice gives the same code, and the second call writes nothing. */
  lemma ShortenIdempotent(store: map<string, Value>, longUrl: string, code1: string, code2: string)
    requires code1 != ""
    ensures var h1 := ShortenSpec(store, longUrl, true, code1);
            var h2 := ShortenSpec(h1.store, longUrl, true, code2);
      && h1.reply.Json? && h2.reply.Json? && h1.reply.status == h2.reply.status == 200
      && h2.reply.body.shortCode == h1.reply.body.shortCode
      && h2.reply.body.msg == Some(ALREADY_EXISTS)
      && h2.store == h1.store
  {
    ShortenOutcomes(store, longUrl, true, code1);
  }

  /** With a code not yet in use, shortening keeps the link invariant. */
  lemma ShortenKeepsConsistent(store: map<string, Value>, longUrl: string, validUrl: bool, code: string)
    requires Consistent(store)
    requires ShortKey(code) !in store
    ensures Consistent(ShortenSpec(store, longUrl, validUrl, code).store)
  {
    var h := ShortenSpec(store, longUrl, validUrl, code);
    if validUrl && !Present(Lookup(store, UrlKey(longUrl))) {
      ShortenOutcomes(store, longUrl, validUrl, code);
      forall u | UrlKey(u) in h.store && h.store[UrlKey(u)].Str?
        ensures var c := h.store[UrlKey(u)].s;
                ShortKey(c) in h.store && h.store[ShortKey(c)] == Str(u) && StatsKey(c) in h.store
      {
        KeysInjective(u, longUrl);
        KeySpacesDisjoint(code, u);
        KeySpacesDisjoint(u, code);
        if u != longUrl {
          var c := store[UrlKey(u)].s;
          KeysInjective(c, code);
          KeySpacesDisjoint(c, longUrl);
          KeySpacesDisjoint(longUrl, c);
          KeySpacesDisjoint(c, code);
          KeySpacesDisjoint(code, c);
        }
      }
    }
  }

  /**
   * The handler does not check that the generated code is unused: a code
   * that collides with an existing one re-points that link, and the older
   * URL's `url:` entry then names a code that redirects elsewhere.
   */
  lemma CollisionBreaksConsistency()
    ensures var before := map[ShortKey("abc123") := Str("http://a.ro"),
                              UrlKey("http://a.ro") := Str("abc123"),
                              StatsKey("abc123") := Num(0)];
            var after := ShortenSpec(before, "http://b.ro", true, "abc123").store;
      && Consistent(before)
      && !Consistent(after)
      && after[UrlKey("http://a.ro")] == Str("abc123")
      && after[ShortKey("abc123")] == Str("http://b.ro")
  {
    OneLinkConsistent("abc123", "http://a.ro");
    CollisionAfter();
  }

  /**
   * Any collision breaks the invariant: when `url:u` names `code` and a
   * different, new URL is shortened with the same code, `short:code` is
   * re-pointed and `url:u` names a code that no longer leads back to u.
   */
  lemma CollisionGeneral(store: map<string, Value>, u: string, longUrl: string, code: string)
    requires UrlKey(u) in store && store[UrlKey(u)] == Str(code)
    requires u != longUrl && !Present(Lookup(store, UrlKey(longUrl)))
    ensures !Consistent(ShortenSpec(store, longUrl, true, code).store)
  {
    KeySpacesDisjoint(code, u);
    KeySpacesDisjoint(u, code);
    KeySpacesDisjoint(code, longUrl);
    KeySpacesDisjoint(longUrl, code);
    KeySpacesDisjoint(code, code);
    KeysInjective(u, longUrl);
    var after := ShortenSpec(store, longUrl, true, code).store;
    assert after[UrlKey(u)] == Str(code);
    assert after[ShortKey(code)] == Str(longUrl) != Str(u);
  }

  /** A store holding the three keys of a single link is consistent. */
  lemma OneLinkConsistent(code: string, longUrl: string)
    ensures Consistent(map[ShortKey(code) := Str(longUrl), UrlKey(longUrl) := Str(code), StatsKey(code) := Num(0)])
  {
    var store := map[ShortKey(code) := Str(longUrl), UrlKey(longUrl) := Str(code), StatsKey(code) := Num(0)];
    forall u | UrlKey(u) in store && store[UrlKey(u)].Str?
      ensures var c := store[UrlKey(u)].s;
              ShortKey(c) in store && store[ShortKey(c)] == Str(u) && StatsKey(c) in store
    {
      KeySpacesDisjoint(code, u);
      KeySpacesDisjoint(u, code);
      KeysInjective(u, longUrl);
      KeySpacesDisjoint(code, longUrl);
      KeySpacesDisjoint(code, code);
    }
  }

  lemma CollisionAfter()
    ensures var before := map[ShortKey("abc123") := Str("http://a.ro"),
                              UrlKey("http://a.ro") := Str("abc123"),
                              StatsKey("abc123") := Num(0)];
            var after := ShortenSpec(before, "http://b.ro", true, "abc123").store;
      && !Consistent(after)
      && after[UrlKey("http://a.ro")] == Str("abc123")
      && after[ShortKey("abc123")] == Str("http://b.ro")
  {
    var before := map[ShortKey("abc123") := Str("http://a.ro"),
                      UrlKey("http://a.ro") := Str("abc123"),
                      StatsKey("abc123") := Num(0)];
    KeySpacesDisjoint("abc123", "http://a.ro");
    KeySpacesDisjoint("abc123", "abc123");
    KeySpacesDisjoint("abc123", "http://b.ro");
    KeySpacesDisjoint("http://b.ro", "abc123");
    KeysInjective("http://a.ro", "http://b.ro");
    assert "http://a.ro" != "http://b.ro" by { assert "http://a.ro"[7] != "http://b.ro"[7]; }
    assert !Present(Lookup(before, UrlKey("http://b.ro")));
    var after := ShortenSpec(before, "http://b.ro", true, "abc123").store;
    assert after == before[ShortKey("abc123") := Str("http://b.ro")][UrlKey("http://b.ro") := Str("abc123")][StatsKey("abc123") := Num(0)];
    assert after[UrlKey("http://a.ro")] == Str("abc123");
    assert after[ShortKey("abc123")] == Str("http://b.ro");
    assert Str("http://b.ro") != Str("http://a.ro");
  }

  /**
   * GET /:code on a known code redirects to its URL and raises its counter by
   * exactly one, whether the counter is the number the shorten handler wrote
   * or the text an earlier redirect wrote; no other key changes. An unknown
   * code gets 404 and changes nothing.
   */
  lemma RedirectCounts(store: map<string, Value>, code: string, n: int)
    ensures var h := RedirectSpec(store, code);
      && (Present(Lookup(store, ShortKey(code))) ==>
            && h.reply == Found(store[ShortKey(code)])
            && (StatsKey(code) !in store ==> h.store == store[StatsKey(code) := Str("1")])
            && (Lookup(store, StatsKey(code)) in {Some(Num(n)), Some(Str(DecimalString(n)))} ==>
                  h.store == store[StatsKey(code) := Str(DecimalString(n + 1))]))
      && (!Present(Lookup(store, ShortKey(code))) ==> h == Handled(Text(404, NO_SUCH_CODE), store))
  {
    var cur := Lookup(store, StatsKey(code));
    IncrCounts(cur, n);
    assert DecimalString(1) == "1";
  }

  /** Counting a visit keeps the link invariant. */
  lemma RedirectKeepsConsistent(store: map<string, Value>, code: string)
    requires Consistent(store)
    ensures Consistent(RedirectSpec(store, code).store)
  {
    var h := RedirectSpec(store, code);
    forall u | UrlKey(u) in h.store && h.store[UrlKey(u)].Str?
      ensures var c := h.store[UrlKey(u)].s;
              ShortKey(c) in h.store && h.store[ShortKey(c)] == Str(u) && StatsKey(c) in h.store
    {
      KeySpacesDisjoint(code, u);
      KeySpacesDisjoint(u, code);
      var c := store[UrlKey(u)].s;
      KeySpacesDisjoint(c, code);
    }
  }

  /**
   * The redirect-then-stats scenario of the backend tests: shorten a new URL,
   * follow its code once, and the stats report that URL with one visit. The
   * double keeps the counter as the text "1", so the visits field holds a string.
   */
  lemma ShortenRedirectStats(store: map<string, Value>, longUrl: string, code: string)
    requires longUrl != "" && !Present(Lookup(store, UrlKey(longUrl)))
    ensures var h1 := ShortenSpec(store, longUrl, true, code);
            var h2 := RedirectSpec(h1.store, code);
      && h1.reply == Json(200, Shortened(Str(code), None))
      && h2.reply == Found(Str(longUrl))
      && StatsSpec(h2.store, code) == Json(200, Stats(Str(longUrl), Str("1")))
  {
    var h1 := ShortenSpec(store, longUrl, true, code);
    ShortenOutcomes(store, longUrl, true, code);
    KeySpacesDisjoint(code, code);
    KeySpacesDisjoint(code, longUrl);
    assert h1.store[ShortKey(code)] == Str(longUrl);
    assert Lookup(h1.store, StatsKey(code)) == Some(Num(0));
    RedirectCounts(h1.store, code, 0);
    assert DecimalString(0 + 1) == "1";
    var h2 := RedirectSpec(h1.store, code);
    assert h2.store == h1.store[StatsKey(code) := Str("1")];
    assert Lookup(h2.store, ShortKey(code)) == Some(Str(longUrl));
  }
}
