/**
 * The two `fetchAndScrape` drivers and their `/` routes. The server one
 * (server_with_sql.js:118-141) saves every accepted record and serves the
 * table a page at a time; the index.js one (index.js:69-82, 101-109) keeps
 * the records with a long enough contact and serves them at once. Each
 * homepage fetch is the input function `fetch`, `None` standing for a
 * failed request.
 */
module Pipelines {
  import opened Wrappers
  import opened Text
  import opened Homepages
  import opened Details
  import opened AgencyStore
  import opened HtmlTable

  /** The homepage links of the map data, none when its fetch failed. */
  function LinksOf(data: Option<string>): seq<string>
  {
    if data.None? then [] else Links(data.value)
  }

  /** The values of the `Some` entries of `xs`, in order. */
  function Somes<T>(xs: seq<Option<T>>): seq<T>
  {
    if xs == [] then []
    else Somes(xs[..|xs| - 1]) + (if xs[|xs| - 1].Some? then [xs[|xs| - 1].value] else [])
  }

  /** One more entry adds its value, if it has one, at the end. */
  lemma SomesSnoc<T>(xs: seq<Option<T>>, x: Option<T>)
    ensures Somes(xs + [x]) == Somes(xs) + (if x.Some? then [x.value] else [])
  {
    assert (xs + [x])[..|xs|] == xs;
  }

  lemma {:induction false} SomesAppend<T>(a: seq<Option<T>>, b: seq<Option<T>>)
    ensures Somes(a + b) == Somes(a) + Somes(b)
    decreases |b|
  {
    if b == [] {
      assert a + b == a;
    } else {
      var init := b[..|b| - 1];
      assert a + b == (a + init) + [b[|b| - 1]];
      SomesAppend(a, init);
      SomesSnoc(a + init, b[|b| - 1]);
      SomesSnoc(init, b[|b| - 1]);
      assert b == init + [b[|b| - 1]];
    }
  }

  /** There are no more values than entries, and each value satisfies what every `Some` entry satisfies. */
  lemma {:induction false} SomesAll<T>(xs: seq<Option<T>>, p: T -> bool)
    requires forall j :: 0 <= j < |xs| && xs[j].Some? ==> p(xs[j].value)
    ensures |Somes(xs)| <= |xs|
    ensures forall k :: 0 <= k < |Somes(xs)| ==> p(Somes(xs)[k])
  {
    if xs != [] {
      SomesAll(xs[..|xs| - 1], p);
    }
  }

  /** `f` applied to each element of `xs`. */
  function Map<A, B>(f: A -> B, xs: seq<A>): seq<B>
  {
    seq(|xs|, k requires 0 <= k < |xs| => f(xs[k]))
  }

  lemma MapAppend<A, B>(f: A -> B, a: seq<A>, b: seq<A>)
    ensures Map(f, a + b) == Map(f, a) + Map(f, b)
  {
    forall k | 0 <= k < |a| + |b|
      ensures Map(f, a + b)[k] == (Map(f, a) + Map(f, b))[k]
    {
      if k < |a| {
        assert (a + b)[k] == a[k];
      } else {
        assert (a + b)[k] == b[k - |a|];
      }
    }
  }

  lemma MapSnoc<A, B>(f: A -> B, xs: seq<A>, i: nat)
    requires i < |xs|
    ensures Map(f, xs[..i + 1]) == Map(f, xs[..i]) + [f(xs[i])]
  {
  }

  /** The server variant's scrape of one homepage. */
  function ScrapeOf(fetch: string -> Option<RawFields>): string -> Option<Details>
  {
    h => ScrapeDetails(fetch(h))
  }

  /** The scrape result of each homepage of server_with_sql.js, in homepage order. */
  function Scrapes(homepages: seq<string>, fetch: string -> Option<RawFields>): seq<Option<Details>>
  {
    Map(ScrapeOf(fetch), homepages)
  }

  /** The records the server variant hands to `saveToDatabase`: each non-null scrape result, in homepage order. */
  function Proposals(homepages: seq<string>, fetch: string -> Option<RawFields>): seq<Details>
  {
    Somes(Scrapes(homepages, fetch))
  }

  /** `saveToDatabase` applied to each record in turn. */
  function SaveAll(rows: seq<Row>, nextId: nat, ds: seq<Details>): (seq<Row>, nat)
  {
    if ds == [] then (rows, nextId)
    else
      var before := SaveAll(rows, nextId, ds[..|ds| - 1]);
      Insert(before.0, before.1, ds[|ds| - 1])
  }

  /** The proposals for consecutive homepage lists are the proposals of each, in order. */
  lemma ProposalsAppend(a: seq<string>, b: seq<string>, fetch: string -> Option<RawFields>)
    ensures Proposals(a + b, fetch) == Proposals(a, fetch) + Proposals(b, fetch)
  {
    MapAppend(ScrapeOf(fetch), a, b);
    SomesAppend(Scrapes(a, fetch), Scrapes(b, fetch));
  }

  /** A homepage contributes exactly the record its scrape yields, if any. */
  lemma ProposalsOfOne(h: string, fetch: string -> Option<RawFields>)
    ensures var d := ScrapeDetails(fetch(h));
      Proposals([h], fetch) == if d.Some? then [d.value] else []
  {
    MapSnoc(ScrapeOf(fetch), [h], 0);
    assert [h][..1] == [h] && [h][..0] == [];
    SomesSnoc([], ScrapeDetails(fetch(h)));
  }

  /** Scraping the next homepage adds its record, if it yields one, at the end. */
  lemma ProposalsStep(homepages: seq<string>, i: nat, fetch: string -> Option<RawFields>)
    requires i < |homepages|
    ensures var d := ScrapeDetails(fetch(homepages[i]));
      Proposals(homepages[..i + 1], fetch) == Proposals(homepages[..i], fetch) + (if d.Some? then [d.value] else [])
  {
    MapSnoc(ScrapeOf(fetch), homepages, i);
    SomesSnoc(Scrapes(homepages[..i], fetch), ScrapeDetails(fetch(homepages[i])));
  }

  /** A record the server variant accepts: its contact is trimmed and begins with `010-`. */
  predicate CleanMobile(d: Details)
  {
    StartsWith(d.contact, MobilePrefix) && Trimmed(d.contact)
  }

  /** Every record offered for saving has a trimmed contact that begins with `010-`, and there are no more of them than homepages. */
  lemma ProposalsAreMobile(homepages: seq<string>, fetch: string -> Option<RawFields>)
    ensures |Proposals(homepages, fetch)| <= |homepages|
    ensures forall k :: 0 <= k < |Proposals(homepages, fetch)| ==> CleanMobile(Proposals(homepages, fetch)[k])
  {
    var xs := Scrapes(homepages, fetch);
    forall j | 0 <= j < |xs| && xs[j].Some?
      ensures CleanMobile(xs[j].value)
    {
      assert xs[j] == ScrapeDetails(fetch(homepages[j]));
    }
    SomesAll(xs, CleanMobile);
  }

  /** Saving never removes or alters a row: the old rows are a prefix of the new ones. */
  lemma {:induction false} SaveAllExtends(rows: seq<Row>, nextId: nat, ds: seq<Details>)
    ensures var (rows', _) := SaveAll(rows, nextId, ds);
      |rows| <= |rows'| <= |rows| + |ds| && rows'[..|rows|] == rows
  {
    if ds != [] {
      SaveAllExtends(rows, nextId, ds[..|ds| - 1]);
      var before := SaveAll(rows, nextId, ds[..|ds| - 1]);
      assert (before.0 + [RowOf(before.1, ds[|ds| - 1])])[..|rows|] == before.0[..|rows|];
    }
  }

  /** Saving a batch keeps the keys unique and the ids ordered. */
  lemma {:induction false} SaveAllKeepsValid(rows: seq<Row>, nextId: nat, ds: seq<Details>)
    requires TableValid(rows, nextId)
    ensures TableValid(SaveAll(rows, nextId, ds).0, SaveAll(rows, nextId, ds).1)
  {
    if ds != [] {
      SaveAllKeepsValid(rows, nextId, ds[..|ds| - 1]);
      var before := SaveAll(rows, nextId, ds[..|ds| - 1]);
      InsertKeepsValid(before.0, before.1, ds[|ds| - 1]);
    }
  }

  /** A key stays in the table once it is there. */
  lemma KeyStays(rows: seq<Row>, nextId: nat, d: Details, e: Details)
    requires HasKey(rows, d)
    ensures HasKey(Insert(rows, nextId, e).0, d)
  {
    var k :| 0 <= k < |rows| && SameKey(rows[k], d);
    assert SameKey(Insert(rows, nextId, e).0[k], d);
  }

  /** After saving a batch, the key of every record in it is in the table. */
  lemma {:induction false} SaveAllStoresEvery(rows: seq<Row>, nextId: nat, ds: seq<Details>)
    ensures forall k :: 0 <= k < |ds| ==> HasKey(SaveAll(rows, nextId, ds).0, ds[k])
  {
    if ds != [] {
      var init := ds[..|ds| - 1];
      var last := ds[|ds| - 1];
      SaveAllStoresEvery(rows, nextId, init);
      var before := SaveAll(rows, nextId, init);
      forall k | 0 <= k < |ds|
        ensures HasKey(SaveAll(rows, nextId, ds).0, ds[k])
      {
        if k < |ds| - 1 {
          assert ds[k] == init[k];
          KeyStays(before.0, before.1, ds[k], last);
        } else {
          InsertStoresKey(before.0, before.1, last);
        }
      }
    }
  }

  /** Scraping one more homepage saves its record, if it yields one, after the earlier ones. */
  lemma SaveAllStep(rows: seq<Row>, nextId: nat, homepages: seq<string>, i: nat, fetch: string -> Option<RawFields>)
    requires i < |homepages|
    ensures var before := SaveAll(rows, nextId, Proposals(homepages[..i], fetch));
      var d := ScrapeDetails(fetch(homepages[i]));
      SaveAll(rows, nextId, Proposals(homepages[..i + 1], fetch))
        == if d.Some? then Insert(before.0, before.1, d.value) else before
  {
    var ps := Proposals(homepages[..i], fetch);
    var d := ScrapeDetails(fetch(homepages[i]));
    ProposalsStep(homepages, i, fetch);
    if d.Some? {
      assert (ps + [d.value])[..|ps|] == ps;
    } else {
      assert ps + [] == ps;
    }
  }

  /** `fetchAndScrape` of server_with_sql.js (lines 133-141): save each accepted record in homepage order. */
  method ServerFetchAndScrape(store: Store, data: Option<string>, fetch: string -> Option<RawFields>)
    requires store.Valid()
    modifies store
    ensures (store.rows, store.nextId) == SaveAll(old(store.rows), old(store.nextId), Proposals(LinksOf(data), fetch))
    ensures store.Valid()
  {
    var homepages := FetchHomePageLinks(data);
    ghost var rows0, next0 := store.rows, store.nextId;
    for i := 0 to |homepages|
      invariant (store.rows, store.nextId) == SaveAll(rows0, next0, Proposals(homepages[..i], fetch))
      invariant store.Valid()
    {
      SaveAllStep(rows0, next0, homepages, i, fetch);
      var details := ScrapeDetails(fetch(homepages[i]));
      if details.Some? {
        store.SaveToDatabase(details.value);
      }
    }
    assert homepages[..|homepages|] == homepages;
  }

  /** The table's rows as the records `createHtmlTable` reads its fields from. */
  function RowsAsDetails(rows: seq<Row>): seq<Details>
  {
    seq(|rows|, k requires 0 <= k < |rows| => Details(rows[k].name, rows[k].representative, rows[k].address, rows[k].contact))
  }

  /**
   * The `/` route of server_with_sql.js (lines 118-130): the page at the
   * requested offset, 0 when none is given, as a table.
   */
  method ServeAgencies(store: Store, offset: Option<int>) returns (html: string)
    ensures html == Table(ServerLayout, RowsAsDetails(Page(store.rows, if offset.Some? then offset.value else 0)))
  {
    var start := if offset.Some? then offset.value else 0;
    html := CreateHtmlTable(ServerLayout, RowsAsDetails(Page(store.rows, start)));
  }

  /** `details.contact.length > 12` (index.js:76): the contact has more than 12 UTF-16 code units. */
  predicate LongEnough(contact: string)
  {
    Utf16Length(contact) > 12
  }

  /** A record index.js keeps: fetched, and with a contact longer than 12 code units. */
  predicate LongContact(d: Option<Details>)
  {
    d.Some? && LongEnough(d.value.contact)
  }

  /** The entry index.js keeps for one scrape result: the record if its contact is long enough, otherwise nothing. */
  function KeepLong(d: Option<Details>): Option<Details>
  {
    if LongContact(d) then d else None
  }

  /** The index.js scrape of one homepage, kept only with a long enough contact. */
  function KeepOf(fetch: string -> Option<RawFields>): string -> Option<Details>
  {
    h => KeepLong(ScrapeDetailsBlanking(fetch(h)))
  }

  /** The kept entry of each homepage of index.js, in homepage order. */
  function Retained(homepages: seq<string>, fetch: string -> Option<RawFields>): seq<Option<Details>>
  {
    Map(KeepOf(fetch), homepages)
  }

  /** The records `fetchAndScrape` of index.js returns, in homepage order. */
  function Kept(homepages: seq<string>, fetch: string -> Option<RawFields>): seq<Details>
  {
    Somes(Retained(homepages, fetch))
  }

  /** Scraping the next homepage adds its record at the end exactly when its contact is long enough. */
  lemma KeptStep(homepages: seq<string>, i: nat, fetch: string -> Option<RawFields>)
    requires i < |homepages|
    ensures var d := ScrapeDetailsBlanking(fetch(homepages[i]));
      Kept(homepages[..i + 1], fetch) == Kept(homepages[..i], fetch) + (if LongContact(d) then [d.value] else [])
  {
    var x := KeepLong(ScrapeDetailsBlanking(fetch(homepages[i])));
    MapSnoc(KeepOf(fetch), homepages, i);
    SomesSnoc(Retained(homepages[..i], fetch), x);
  }

  /** The records of `ds` whose contact is longer than 12 code units, in order. */
  function Long(ds: seq<Details>): seq<Details>
  {
    if ds == [] then []
    else Long(ds[..|ds| - 1]) + (if LongEnough(ds[|ds| - 1].contact) then [ds[|ds| - 1]] else [])
  }

  lemma {:induction false} LongAppendOne(ds: seq<Details>, d: Details)
    ensures Long(ds + [d]) == Long(ds) + (if LongEnough(d.contact) then [d] else [])
  {
    assert (ds + [d])[..|ds|] == ds;
  }

  /**
   * Both variants pick up the same records: index.js keeps exactly the
   * records the server variant would save whose contact is longer than 12 code units.
   */
  lemma {:induction false} KeptAreLongProposals(homepages: seq<string>, fetch: string -> Option<RawFields>)
    ensures Kept(homepages, fetch) == Long(Proposals(homepages, fetch))
    decreases |homepages|
  {
    if homepages != [] {
      var n := |homepages| - 1;
      var init := homepages[..n];
      assert homepages[..n + 1] == homepages;
      var page := fetch(homepages[n]);
      KeptAreLongProposals(init, fetch);
      KeptStep(homepages, n, fetch);
      ProposalsStep(homepages, n, fetch);
      VariantsAgree(page);
      var d := ScrapeDetails(page);
      if d.Some? {
        LongAppendOne(Proposals(init, fetch), d.value);
      } else {
        assert Proposals(init, fetch) + [] == Proposals(init, fetch);
        assert Kept(init, fetch) + [] == Kept(init, fetch);
      }
    }
  }

  /**
   * The filter counts UTF-16 code units, not characters: `010-` and five
   * emoji above U+FFFF are nine characters but fourteen code units, so the
   * record is kept.
   */
  lemma AstralContactKept(name: string, representative: string, address: string)
    ensures var c := "010-" + "\U{1F600}\U{1F600}\U{1F600}\U{1F600}\U{1F600}";
      |c| == 9 && LongContact(Some(Details(name, representative, address, c)))
  {
    var e := "\U{1F600}\U{1F600}\U{1F600}\U{1F600}\U{1F600}";
    Utf16LengthOfBmp("010-");
    Utf16LengthAppend("010-", e);
    Utf16LengthOfAstral(e);
  }

  /** Text of the Basic Multilingual Plane passes the filter exactly when it has more than 12 characters. */
  lemma BmpContactLength(contact: string)
    requires forall i :: 0 <= i < |contact| ==> contact[i] as int <= 0xFFFF
    ensures LongEnough(contact) <==> |contact| > 12
  {
    Utf16LengthOfBmp(contact);
  }

  /** A record index.js keeps has a real mobile contact: a blanked one is too short. */
  predicate MobileRecord(d: Details)
  {
    StartsWith(d.contact, MobilePrefix) && LongEnough(d.contact)
  }

  lemma LongBlankedIsMobile(page: Option<RawFields>)
    requires LongContact(ScrapeDetailsBlanking(page))
    ensures MobileRecord(ScrapeDetailsBlanking(page).value)
  {
    var d := ScrapeDetailsBlanking(page).value;
    assert d.contact != "";
  }

  /** Every record index.js returns has a contact that begins with `010-` and is longer than 12 code units. */
  lemma KeptAreMobile(homepages: seq<string>, fetch: string -> Option<RawFields>)
    ensures forall k :: 0 <= k < |Kept(homepages, fetch)| ==> MobileRecord(Kept(homepages, fetch)[k])
  {
    var xs := Retained(homepages, fetch);
    forall j | 0 <= j < |xs| && xs[j].Some?
      ensures MobileRecord(xs[j].value)
    {
      assert xs[j] == KeepLong(ScrapeDetailsBlanking(fetch(homepages[j])));
      LongBlankedIsMobile(fetch(homepages[j]));
    }
    SomesAll(xs, MobileRecord);
  }

  /**
   * `fetchAndScrape` of index.js (lines 69-82): the kept records in
   * homepage order and the final value of `cntHomePage`.
   */
  method IndexFetchAndScrape(data: Option<string>, fetch: string -> Option<RawFields>)
    returns (detailsList: seq<Details>, cntHomePage: int)
    ensures detailsList == Kept(LinksOf(data), fetch)
    ensures cntHomePage == 1 + |detailsList|
  {
    var homepages := FetchHomePageLinks(data);
    detailsList := [];
    cntHomePage := 1;
    for i := 0 to |homepages|
      invariant detailsList == Kept(homepages[..i], fetch)
      invariant cntHomePage == 1 + |detailsList|
    {
      var details := ScrapeDetailsBlanking(fetch(homepages[i]));
      KeptStep(homepages, i, fetch);
      if details.Some? && Utf16Length(details.value.contact) > 12 {
        cntHomePage := cntHomePage + 1;
        detailsList := detailsList + [details.value];
      } else {
        assert detailsList + [] == detailsList;
      }
    }
    assert homepages[..|homepages|] == homepages;
  }

  /** The `/` route of index.js (lines 101-109): scrape, then serve the kept records as a table. */
  method ServeIndex(data: Option<string>, fetch: string -> Option<RawFields>) returns (html: string)
    ensures html == Table(IndexLayout, Kept(LinksOf(data), fetch))
  {
    var data', _ := IndexFetchAndScrape(data, fetch);
    html := CreateHtmlTable(IndexLayout, data');
  }
}
