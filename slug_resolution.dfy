/**
 * The slug resolution engine as pure functions over the store's contents,
 * a map from slug to URL.  Both server variants run the same search
 * (`generate_slug` in src/lib.rs, `select_hash` in src/main.rs) and make the
 * same write-if-new decision; their methods are proved against these
 * definitions, and the properties of the engine (first fit, idempotency,
 * no overwrite, round trip) are proved here once.
 */
module SlugResolution {
  import opened Fingerprint

  datatype Option<T> = None | Some(value: T)

  /** The slug picked for a URL, and whether the store already maps it to that URL. */
  datatype Choice = Choice(slug: string, existed: bool)

  /** What resolving a URL leads to: a slug, a search that ran out of windows
      (a panic in the source), or a caller slug taken by another URL. */
  datatype Resolution = Chosen(choice: Choice) | Exhausted | Conflict

  /** The slug is taken, and by a different URL. */
  predicate Collides(store: map<string, string>, url: string, slug: string) {
    slug in store && store[slug] != url
  }

  /** How many windows the search looks at: offsets `0 <= k < |d| - 8`, as the
      loop guard `count < digest.len() - 8` allows.  The last window, at offset
      `|d| - 8`, is never examined. */
  function Tries(d: string): (n: nat)
    requires |d| >= SlugLen
    ensures n + SlugLen == |d|
  {
    |d| - SlugLen
  }

  /** The first offset at or after `from` whose window does not collide,
      or `Tries(d)` when every remaining window collides. */
  function FirstOpen(store: map<string, string>, url: string, d: string, from: nat): (k: nat)
    requires |d| >= SlugLen && from <= Tries(d)
    ensures from <= k <= Tries(d)
    ensures forall j | from <= j < k :: Collides(store, url, Window(d, j))
    ensures k < Tries(d) ==> !Collides(store, url, Window(d, k))
    decreases Tries(d) - from
  {
    if from == Tries(d) || !Collides(store, url, Window(d, from)) then from
    else FirstOpen(store, url, d, from + 1)
  }

  /** Auto-generation: the first window of the digest that is free or already
      holds this URL; exhausted when all tried windows collide. */
  function AutoSlug(store: map<string, string>, url: string, d: string): (r: Resolution)
    requires |d| >= SlugLen
    ensures !r.Conflict?
    ensures r.Exhausted? <==> forall j | 0 <= j < Tries(d) :: Collides(store, url, Window(d, j))
    ensures r.Chosen? ==> exists k | 0 <= k < Tries(d) ::
      && r.choice.slug == Window(d, k)
      && forall j | 0 <= j < k :: Collides(store, url, Window(d, j))
    ensures r.Chosen? ==> |r.choice.slug| == SlugLen && !Collides(store, url, r.choice.slug)
    ensures r.Chosen? ==> (r.choice.existed <==> r.choice.slug in store)
  {
    var k := FirstOpen(store, url, d, 0);
    if k < Tries(d) then Chosen(Choice(Window(d, k), Window(d, k) in store)) else Exhausted
  }

  /** A caller-chosen, non-empty slug: new when absent, reused when it already
      holds this URL, a conflict when it holds another. */
  function ExplicitSlug(store: map<string, string>, url: string, slug: string): (r: Resolution)
    ensures r.Conflict? <==> Collides(store, url, slug)
    ensures r.Chosen? ==> r.choice == Choice(slug, slug in store)
    ensures !r.Exhausted?
  {
    if slug !in store then Chosen(Choice(slug, false))
    else if store[slug] == url then Chosen(Choice(slug, true))
    else Conflict
  }

  /** The two entry modes: no slug or an empty slug means auto-generation. */
  function Resolve(store: map<string, string>, d: string, url: string, slug: Option<string>): (r: Resolution)
    requires |d| >= SlugLen
    ensures r.Conflict? <==> slug.Some? && slug.value != "" && Collides(store, url, slug.value)
    ensures r.Exhausted? ==> slug.None? || slug.value == ""
    ensures r.Chosen? ==> r.choice.slug != "" && !Collides(store, url, r.choice.slug)
    ensures r.Chosen? ==> (r.choice.existed <==> r.choice.slug in store)
    ensures slug.Some? && slug.value != "" && r.Chosen? ==> r.choice.slug == slug.value
    ensures slug.None? || slug.value == "" ==> r == AutoSlug(store, url, d)
  {
    match slug
    case Some(s) => if s == "" then AutoSlug(store, url, d) else ExplicitSlug(store, url, s)
    case None => AutoSlug(store, url, d)
  }

  /** The write that follows a resolution: insert only a newly chosen slug. */
  function Commit(store: map<string, string>, url: string, r: Resolution): (after: map<string, string>)
    ensures after.Keys == store.Keys + (if r.Chosen? && !r.choice.existed then {r.choice.slug} else {})
    ensures r.Chosen? && !r.choice.existed ==> after[r.choice.slug] == url
    ensures forall s | s in store && !(r.Chosen? && !r.choice.existed && s == r.choice.slug) :: after[s] == store[s]
    ensures !r.Chosen? ==> after == store
  {
    if r.Chosen? && !r.choice.existed then store[r.choice.slug := url] else store
  }

  /** Pre-seeding the store so that the first `k` windows are taken by other
      URLs makes the search pick window `k`, new or existing as the store says. */
  lemma AutoSlugAfterCollisions(store: map<string, string>, url: string, d: string, k: nat)
    requires |d| >= SlugLen && k < Tries(d)
    requires forall j | 0 <= j < k :: Collides(store, url, Window(d, j))
    requires !Collides(store, url, Window(d, k))
    ensures AutoSlug(store, url, d) == Chosen(Choice(Window(d, k), Window(d, k) in store))
  {
  }

  /** The window at offset `|d| - 8` plays no part: when every tried window
      collides the search is exhausted even if that last window is free. */
  lemma LastWindowNeverTried(store: map<string, string>, url: string, d: string)
    requires |d| >= SlugLen
    requires forall j | 0 <= j < Tries(d) :: Collides(store, url, Window(d, j))
    requires Window(d, Tries(d)) !in store
    ensures AutoSlug(store, url, d) == Exhausted
  {
  }

  /** On an empty store a URL gets the first 8 characters of its digest, as new. */
  lemma AutoSlugOnEmptyStore(url: string, d: string)
    requires |d| > SlugLen
    ensures AutoSlug(map[], url, d) == Chosen(Choice(d[..SlugLen], false))
  {
    AutoSlugAfterCollisions(map[], url, d, 0);
  }

  /** Idempotency of auto-generation: after the chosen slug is written, the
      same URL walks the same windows and stops at the same slot, now as an
      existing entry. */
  lemma AutoSlugIdempotent(store: map<string, string>, url: string, d: string)
    requires |d| >= SlugLen && AutoSlug(store, url, d).Chosen?
    ensures var c := AutoSlug(store, url, d).choice;
      AutoSlug(store[c.slug := url], url, d) == Chosen(Choice(c.slug, true))
  {
    var k := FirstOpen(store, url, d, 0);
    var w := Window(d, k);
    var after := store[w := url];
    forall j | 0 <= j < k
      ensures Collides(after, url, Window(d, j))
    {
      assert Collides(store, url, Window(d, j));
      assert Window(d, j) != w;
    }
    AutoSlugAfterCollisions(after, url, d, k);
  }

  /** A resolution never replaces what the store holds: every existing record
      survives the commit, and a chosen slug then maps to the URL. */
  lemma CommitKeepsRecords(store: map<string, string>, d: string, url: string, slug: Option<string>)
    requires |d| >= SlugLen
    ensures var r := Resolve(store, d, url, slug);
      var after := Commit(store, url, r);
      && (forall s | s in store :: s in after && after[s] == store[s])
      && (r.Chosen? ==> r.choice.slug in after && after[r.choice.slug] == url)
      && (!r.Chosen? || r.choice.existed ==> after == store)
      && (r.Chosen? && !r.choice.existed ==> after.Keys == store.Keys + {r.choice.slug})
  {
  }

  /** Resolving the same request twice: the second call picks the same slug,
      reports it as existing and writes nothing. */
  lemma ResolveIdempotent(store: map<string, string>, d: string, url: string, slug: Option<string>)
    requires |d| >= SlugLen && Resolve(store, d, url, slug).Chosen?
    ensures var r := Resolve(store, d, url, slug);
      var after := Commit(store, url, r);
      var again := Resolve(after, d, url, slug);
      again == Chosen(Choice(r.choice.slug, true)) && Commit(after, url, again) == after
  {
    var r := Resolve(store, d, url, slug);
    if slug.None? || slug.value == "" {
      if !r.choice.existed {
        AutoSlugIdempotent(store, url, d);
      }
    }
  }

  /** No silent overwrite: a caller slug held by another URL is a conflict and the store stays as it was. */
  lemma ConflictLeavesStore(store: map<string, string>, d: string, url: string, slug: string)
    requires |d| >= SlugLen && slug != "" && slug in store && store[slug] != url
    ensures Resolve(store, d, url, Some(slug)) == Conflict
    ensures Commit(store, url, Conflict) == store && store[slug] != url
  {
  }
}
