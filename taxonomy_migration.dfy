/**
 * The term copying and relinking of the 1.2.0 migration (`upgrade_120`):
 * every legacy category and tag becomes a host term with a term-taxonomy
 * row, old term and parent ids are remapped to the new term ids, and the
 * legacy catalog rows become term relationships of the new product posts.
 *
 * The host tables are abstract: the terms table is the set of slugs in use
 * plus the rows the migration inserts, both tables hand out consecutive
 * auto-increment ids, and every query result is a sequence of records.
 * Specification functions describe the state after the first `n` records.
 */
module TaxonomyMigration {
  import opened Wrappers
  import opened TermSlugs

  /** The two target taxonomies, `shopp_category` and `shopp_tag`. */
  datatype Taxonomy = ShoppCategory | ShoppTag

  /** A row of the legacy term query: categories and tags together, ordered by old id. */
  datatype LegacyTerm = LegacyTerm(
    id: int, taxonomy: Taxonomy, name: string, parent: int, description: string, slug: string)

  // ---------------------------------------------------------------------
  // The host term tables
  // ---------------------------------------------------------------------

  /** A row of the host terms table (its `term_group` is not modelled). */
  datatype TermRow = TermRow(name: string, slug: string)

  /** A row of the host term-taxonomy table (its `count` is always 0 on insert). */
  datatype TaxonomyRow = TaxonomyRow(termId: int, taxonomy: Taxonomy, description: string, parent: int)

  function SlugsOf(rows: seq<TermRow>): set<string>
  {
    set i | 0 <= i < |rows| :: rows[i].slug
  }

  /** Appending a row adds its slug. */
  lemma SlugsOfAppend(rows: seq<TermRow>, row: TermRow)
    ensures SlugsOf(rows + [row]) == SlugsOf(rows) + {row.slug}
  {
    var a := rows + [row];
    assert a[|rows|] == row;
    forall j | 0 <= j < |rows| ensures a[j] == rows[j] { }
  }

  /** The terms and term-taxonomy tables, each with its auto-increment counter. */
  class TermStore {
    /** Every slug in the terms table. */
    var slugs: set<string>
    /** The terms rows, in insertion order. */
    var terms: seq<TermRow>
    var nextTermId: int
    var taxonomies: seq<TaxonomyRow>
    var nextTtId: int

    constructor (slugs: set<string>, nextTermId: int, nextTtId: int)
      ensures this.slugs == slugs && terms == [] && taxonomies == []
      ensures this.nextTermId == nextTermId && this.nextTtId == nextTtId
    {
      this.slugs := slugs;
      terms := [];
      this.nextTermId := nextTermId;
      taxonomies := [];
      this.nextTtId := nextTtId;
    }

    /** `INSERT INTO terms (name, slug, …)`, returning the insert id. */
    method InsertTerm(name: string, slug: string) returns (id: int)
      modifies this`slugs, this`terms, this`nextTermId
      ensures id == old(nextTermId) && nextTermId == id + 1
      ensures slugs == old(slugs) + {slug} && terms == old(terms) + [TermRow(name, slug)]
    {
      id := nextTermId;
      nextTermId := nextTermId + 1;
      slugs := slugs + {slug};
      terms := terms + [TermRow(name, slug)];
    }

    /** `INSERT INTO term_taxonomy (term_id, taxonomy, description, parent, count)`, returning the insert id. */
    method InsertTermTaxonomy(termId: int, taxonomy: Taxonomy, description: string, parent: int) returns (id: int)
      modifies this`taxonomies, this`nextTtId
      ensures id == old(nextTtId) && nextTtId == id + 1
      ensures taxonomies == old(taxonomies) + [TaxonomyRow(termId, taxonomy, description, parent)]
    {
      id := nextTtId;
      nextTtId := nextTtId + 1;
      taxonomies := taxonomies + [TaxonomyRow(termId, taxonomy, description, parent)];
    }
  }

  // ---------------------------------------------------------------------
  // What the term loop builds
  // ---------------------------------------------------------------------

  /** `$m[$tax]`, or an empty map where PHP would create one. */
  function Sub(m: map<Taxonomy, map<int, int>>, tax: Taxonomy): map<int, int>
  {
    if tax in m then m[tax] else map[]
  }

  /**
   * `$mapping` after the first `n` terms, when the terms table hands out
   * ids from `base`: the i-th term gets the new id `base + i`.
   */
  function MappingAfter(terms: seq<LegacyTerm>, n: nat, base: int): map<Taxonomy, map<int, int>>
    requires n <= |terms|
  {
    if n == 0 then map[]
    else
      var m := MappingAfter(terms, n - 1, base);
      var t := terms[n - 1];
      m[t.taxonomy := Sub(m, t.taxonomy)[t.id := base + n - 1]]
  }

  /** `$parent` for term `t` once `$mapping` is `m`: remapped if that old id is mapped in the term's taxonomy. */
  function ParentLookup(m: map<Taxonomy, map<int, int>>, t: LegacyTerm): int
  {
    var sub := Sub(m, t.taxonomy);
    if t.parent in sub then sub[t.parent] else t.parent
  }

  /** The term-taxonomy rows inserted for the first `n` terms; each looks its parent up once its own id is mapped. */
  function TaxonomyRowsFor(terms: seq<LegacyTerm>, n: nat, base: int): (r: seq<TaxonomyRow>)
    requires n <= |terms|
    ensures |r| == n
  {
    if n == 0 then []
    else
      var t := terms[n - 1];
      TaxonomyRowsFor(terms, n - 1, base)
        + [TaxonomyRow(base + n - 1, t.taxonomy, t.description, ParentLookup(MappingAfter(terms, n, base), t))]
  }

  /** `$tt_ids` after the first `n` terms: new term id `base + i` maps to term-taxonomy id `ttBase + i`. */
  function TtIdsAfter(terms: seq<LegacyTerm>, n: nat, base: int, ttBase: int): map<Taxonomy, map<int, int>>
    requires n <= |terms|
  {
    if n == 0 then map[]
    else
      var m := TtIdsAfter(terms, n - 1, base, ttBase);
      var t := terms[n - 1];
      m[t.taxonomy := Sub(m, t.taxonomy)[base + n - 1 := ttBase + n - 1]]
  }

  /**
   * The terms rows inserted for the first `n` terms, when `used` are the
   * slugs in the terms table beforehand: each term keeps its name and takes
   * the slug chosen against the slugs in use at that point.
   */
  function NewRows(terms: seq<LegacyTerm>, n: nat, used: set<string>, sanitize: string -> string): (r: seq<TermRow>)
    requires n <= |terms|
    ensures |r| == n
  {
    if n == 0 then []
    else
      var init := NewRows(terms, n - 1, used, sanitize);
      var t := terms[n - 1];
      init + [TermRow(t.name, ChosenSlug(BaseSlug(t.slug, sanitize), used + SlugsOf(init)))]
  }

  // ---------------------------------------------------------------------
  // Properties of the remapping
  // ---------------------------------------------------------------------

  /** Index `i` holds the last of the first `n` terms with this taxonomy and old id. */
  ghost predicate LastWith(terms: seq<LegacyTerm>, n: nat, tax: Taxonomy, k: int, i: int)
    requires n <= |terms|
  {
    && 0 <= i < n && terms[i].taxonomy == tax && terms[i].id == k
    && forall j :: i < j < n ==> !(terms[j].taxonomy == tax && terms[j].id == k)
  }

  /**
   * Term remapping: an old id is mapped in a taxonomy exactly when some term
   * of that taxonomy had it, and it maps to the new id of the last such term.
   */
  lemma {:induction false} MappingLookup(terms: seq<LegacyTerm>, n: nat, base: int, tax: Taxonomy, k: int)
    requires n <= |terms|
    ensures k in Sub(MappingAfter(terms, n, base), tax)
      <==> exists i :: 0 <= i < n && terms[i].taxonomy == tax && terms[i].id == k
    ensures forall i :: LastWith(terms, n, tax, k, i) ==> Sub(MappingAfter(terms, n, base), tax)[k] == base + i
  {
    if n > 0 {
      MappingLookup(terms, n - 1, base, tax, k);
      forall i | LastWith(terms, n, tax, k, i) && i < n - 1 ensures LastWith(terms, n - 1, tax, k, i) { }
    }
  }

  /** The index of the last of the first `n` terms with this taxonomy and old id, given that one exists. */
  lemma {:induction false} LastIndex(terms: seq<LegacyTerm>, n: nat, tax: Taxonomy, k: int) returns (i: int)
    requires n <= |terms|
    requires exists j :: 0 <= j < n && terms[j].taxonomy == tax && terms[j].id == k
    ensures LastWith(terms, n, tax, k, i)
  {
    var t := terms[n - 1];
    if t.taxonomy == tax && t.id == k {
      i := n - 1;
    } else {
      i := LastIndex(terms, n - 1, tax, k);
    }
  }

  /** The new ids are distinct: two different old ids of one taxonomy never share a new id. */
  lemma MappingInjective(terms: seq<LegacyTerm>, n: nat, base: int, tax: Taxonomy, k1: int, k2: int)
    requires n <= |terms| && k1 != k2
    requires k1 in Sub(MappingAfter(terms, n, base), tax) && k2 in Sub(MappingAfter(terms, n, base), tax)
    ensures Sub(MappingAfter(terms, n, base), tax)[k1] != Sub(MappingAfter(terms, n, base), tax)[k2]
  {
    MappingLookup(terms, n, base, tax, k1);
    MappingLookup(terms, n, base, tax, k2);
    var i1 := LastIndex(terms, n, tax, k1);
    var i2 := LastIndex(terms, n, tax, k2);
  }

  /** Row `i` belongs to the new term `base + i`, with the term's taxonomy, description and looked-up parent. */
  lemma {:induction false} TaxonomyRowsIndex(terms: seq<LegacyTerm>, n: nat, base: int, i: nat)
    requires i < n <= |terms|
    ensures TaxonomyRowsFor(terms, n, base)[i]
      == TaxonomyRow(base + i, terms[i].taxonomy, terms[i].description, ParentLookup(MappingAfter(terms, i + 1, base), terms[i]))
  {
    if i < n - 1 {
      TaxonomyRowsIndex(terms, n - 1, base, i);
    }
  }

  /**
   * Parent remapping: a term's parent becomes the new id of the last term,
   * up to and including this one, that had the parent's old id in the same
   * taxonomy ...
   */
  lemma ParentRemapped(terms: seq<LegacyTerm>, i: nat, base: int, j: int)
    requires i < |terms|
    requires LastWith(terms, i + 1, terms[i].taxonomy, terms[i].parent, j)
    ensures ParentLookup(MappingAfter(terms, i + 1, base), terms[i]) == base + j
  {
    MappingLookup(terms, i + 1, base, terms[i].taxonomy, terms[i].parent);
  }

  /** ... and stays as it is when no such term precedes it. */
  lemma ParentKept(terms: seq<LegacyTerm>, i: nat, base: int)
    requires i < |terms|
    requires forall j :: 0 <= j <= i ==> !(terms[j].taxonomy == terms[i].taxonomy && terms[j].id == terms[i].parent)
    ensures ParentLookup(MappingAfter(terms, i + 1, base), terms[i]) == terms[i].parent
  {
    MappingLookup(terms, i + 1, base, terms[i].taxonomy, terms[i].parent);
  }

  /** The term-taxonomy id of every new term is recorded under its taxonomy. */
  lemma {:induction false} TtIdsLookup(terms: seq<LegacyTerm>, n: nat, base: int, ttBase: int, i: int)
    requires 0 <= i < n <= |terms|
    ensures base + i in Sub(TtIdsAfter(terms, n, base, ttBase), terms[i].taxonomy)
    ensures Sub(TtIdsAfter(terms, n, base, ttBase), terms[i].taxonomy)[base + i] == ttBase + i
  {
    if i < n - 1 {
      TtIdsLookup(terms, n - 1, base, ttBase, i);
    }
  }

  /** Only new term ids are keys of the term-taxonomy map, each under its own term's taxonomy. */
  lemma {:induction false} TtIdsKeys(terms: seq<LegacyTerm>, n: nat, base: int, ttBase: int, tax: Taxonomy, id: int)
    requires n <= |terms|
    requires id in Sub(TtIdsAfter(terms, n, base, ttBase), tax)
    ensures exists i :: 0 <= i < n && terms[i].taxonomy == tax && id == base + i
  {
    var t := terms[n - 1];
    if !(t.taxonomy == tax && id == base + n - 1) {
      TtIdsKeys(terms, n - 1, base, ttBase, tax, id);
    }
  }

  /** The rows for the first `j` terms are a prefix of the rows for the first `n`. */
  lemma {:induction false} NewRowsPrefix(terms: seq<LegacyTerm>, n: nat, used: set<string>, sanitize: string -> string, j: nat)
    requires j <= n <= |terms|
    ensures NewRows(terms, n, used, sanitize)[..j] == NewRows(terms, j, used, sanitize)
  {
    if j < n {
      NewRowsPrefix(terms, n - 1, used, sanitize, j);
      assert NewRows(terms, n, used, sanitize)[..n - 1] == NewRows(terms, n - 1, used, sanitize);
    }
  }

  /**
   * The `j`-th new terms row keeps its term's name and has the slug
   * `SlugChosen` describes against the old slugs and those of the rows
   * inserted before it.
   */
  lemma NewRowAt(terms: seq<LegacyTerm>, n: nat, used: set<string>, sanitize: string -> string, j: nat)
    requires j < n <= |terms|
    ensures var r := NewRows(terms, n, used, sanitize);
      && r[j].name == terms[j].name
      && SlugChosen(BaseSlug(terms[j].slug, sanitize), used + SlugsOf(r[..j]), r[j].slug)
  {
    var r := NewRows(terms, n, used, sanitize);
    NewRowsPrefix(terms, n, used, sanitize, j + 1);
    NewRowsPrefix(terms, n, used, sanitize, j);
    assert r[..j + 1][j] == r[j];
    ChosenSlugCorrect(BaseSlug(terms[j].slug, sanitize), used + SlugsOf(r[..j]));
  }

  /** No new slug was in use before the migration, and no two new slugs are equal. */
  lemma NewSlugsFresh(terms: seq<LegacyTerm>, n: nat, used: set<string>, sanitize: string -> string)
    requires n <= |terms|
    ensures var r := NewRows(terms, n, used, sanitize);
      && (forall j :: 0 <= j < n ==> r[j].slug !in used)
      && (forall j, k :: 0 <= j < k < n ==> r[j].slug != r[k].slug)
  {
    var r := NewRows(terms, n, used, sanitize);
    forall j | 0 <= j < n ensures r[j].slug !in used {
      NewRowAt(terms, n, used, sanitize, j);
    }
    forall j, k | 0 <= j < k < n ensures r[j].slug != r[k].slug {
      NewRowAt(terms, n, used, sanitize, k);
      assert r[..k][j] == r[j];
      assert r[j].slug in SlugsOf(r[..k]);
    }
  }

  // ---------------------------------------------------------------------
  // The term loop
  // ---------------------------------------------------------------------

  /** One pass of the loop body: the term is inserted under a free slug and both id maps are extended. */
  method MigrateTerm(term: LegacyTerm, store: TermStore, sanitize: string -> string,
                     mapping: map<Taxonomy, map<int, int>>, ttIds: map<Taxonomy, map<int, int>>)
    returns (slug: string, mapping': map<Taxonomy, map<int, int>>, ttIds': map<Taxonomy, map<int, int>>)
    modifies store
    ensures slug == ChosenSlug(BaseSlug(term.slug, sanitize), old(store.slugs))
    ensures store.slugs == old(store.slugs) + {slug}
    ensures store.terms == old(store.terms) + [TermRow(term.name, slug)]
    ensures store.nextTermId == old(store.nextTermId) + 1 && store.nextTtId == old(store.nextTtId) + 1
    ensures mapping' == mapping[term.taxonomy := Sub(mapping, term.taxonomy)[term.id := old(store.nextTermId)]]
    ensures ttIds' == ttIds[term.taxonomy := Sub(ttIds, term.taxonomy)[old(store.nextTermId) := old(store.nextTtId)]]
    ensures store.taxonomies == old(store.taxonomies)
      + [TaxonomyRow(old(store.nextTermId), term.taxonomy, term.description, ParentLookup(mapping', term))]
  {
    slug := ChooseSlug(term.slug, store.slugs, sanitize);
    var termId := store.InsertTerm(term.name, slug);
    var m := Sub(mapping, term.taxonomy)[term.id := termId];
    mapping' := mapping[term.taxonomy := m];
    var parent := if term.parent in m then m[term.parent] else term.parent;
    var ttId := store.InsertTermTaxonomy(termId, term.taxonomy, term.description, parent);
    ttIds' := ttIds[term.taxonomy := Sub(ttIds, term.taxonomy)[termId := ttId]];
  }

  /**
   * The tables and maps after the first `n` legacy terms, when the loop
   * started with the terms rows `t0`, the slugs `s0`, the term-taxonomy rows
   * `x0` and the counters `base` / `ttBase`.
   */
  ghost predicate MigratedUpTo(terms: seq<LegacyTerm>, n: nat, sanitize: string -> string,
                               mapping: map<Taxonomy, map<int, int>>, ttIds: map<Taxonomy, map<int, int>>,
                               base: int, ttBase: int, t0: seq<TermRow>, s0: set<string>, x0: seq<TaxonomyRow>,
                               rows: seq<TermRow>, slugs: set<string>, nextTermId: int,
                               taxonomies: seq<TaxonomyRow>, nextTtId: int)
  {
    && n <= |terms|
    && mapping == MappingAfter(terms, n, base)
    && ttIds == TtIdsAfter(terms, n, base, ttBase)
    && nextTermId == base + n && nextTtId == ttBase + n
    && rows == t0 + NewRows(terms, n, s0, sanitize)
    && slugs == s0 + SlugsOf(NewRows(terms, n, s0, sanitize))
    && taxonomies == x0 + TaxonomyRowsFor(terms, n, base)
  }

  /** One pass of the loop body carries the tables and maps from `i` terms to `i + 1`. */
  lemma MigrateStep(terms: seq<LegacyTerm>, i: nat, sanitize: string -> string,
                    mapping: map<Taxonomy, map<int, int>>, ttIds: map<Taxonomy, map<int, int>>,
                    base: int, ttBase: int, t0: seq<TermRow>, s0: set<string>, x0: seq<TaxonomyRow>,
                    rows: seq<TermRow>, slugs: set<string>, nextTermId: int,
                    taxonomies: seq<TaxonomyRow>, nextTtId: int, slug: string)
    requires i < |terms|
    requires MigratedUpTo(terms, i, sanitize, mapping, ttIds, base, ttBase, t0, s0, x0,
                          rows, slugs, nextTermId, taxonomies, nextTtId)
    requires slug == ChosenSlug(BaseSlug(terms[i].slug, sanitize), slugs)
    ensures var t := terms[i];
      var mapping' := mapping[t.taxonomy := Sub(mapping, t.taxonomy)[t.id := nextTermId]];
      MigratedUpTo(terms, i + 1, sanitize, mapping',
                   ttIds[t.taxonomy := Sub(ttIds, t.taxonomy)[nextTermId := nextTtId]],
                   base, ttBase, t0, s0, x0,
                   rows + [TermRow(t.name, slug)], slugs + {slug}, nextTermId + 1,
                   taxonomies + [TaxonomyRow(nextTermId, t.taxonomy, t.description, ParentLookup(mapping', t))],
                   nextTtId + 1)
  {
    var t := terms[i];
    var mapping' := mapping[t.taxonomy := Sub(mapping, t.taxonomy)[t.id := nextTermId]];
    var row := TaxonomyRow(nextTermId, t.taxonomy, t.description, ParentLookup(mapping', t));
    var added := NewRows(terms, i, s0, sanitize);
    SlugsOfAppend(added, TermRow(t.name, slug));
    assert x0 + (TaxonomyRowsFor(terms, i, base) + [row]) == taxonomies + [row];
    assert t0 + (added + [TermRow(t.name, slug)]) == rows + [TermRow(t.name, slug)];
  }

  /**
   * The loop over the legacy terms: each term gets a free slug, a terms row
   * and a term-taxonomy row, and the old-to-new id maps are built up as it goes.
   */
  method MigrateTerms(terms: seq<LegacyTerm>, store: TermStore, sanitize: string -> string)
    returns (mapping: map<Taxonomy, map<int, int>>, ttIds: map<Taxonomy, map<int, int>>)
    modifies store
    ensures mapping == MappingAfter(terms, |terms|, old(store.nextTermId))
    ensures ttIds == TtIdsAfter(terms, |terms|, old(store.nextTermId), old(store.nextTtId))
    ensures store.nextTermId == old(store.nextTermId) + |terms|
    ensures store.nextTtId == old(store.nextTtId) + |terms|
    ensures store.terms == old(store.terms) + NewRows(terms, |terms|, old(store.slugs), sanitize)
    ensures store.slugs == old(store.slugs) + SlugsOf(NewRows(terms, |terms|, old(store.slugs), sanitize))
    ensures store.taxonomies == old(store.taxonomies) + TaxonomyRowsFor(terms, |terms|, old(store.nextTermId))
  {
    ghost var base, ttBase := store.nextTermId, store.nextTtId;
    ghost var t0, s0, x0 := store.terms, store.slugs, store.taxonomies;
    mapping, ttIds := map[], map[];
    var i := 0;
    while i < |terms|
      invariant i <= |terms|
      invariant MigratedUpTo(terms, i, sanitize, mapping, ttIds, base, ttBase, t0, s0, x0,
                             store.terms, store.slugs, store.nextTermId, store.taxonomies, store.nextTtId)
    {
      MigrateStep(terms, i, sanitize, mapping, ttIds, base, ttBase, t0, s0, x0,
                  store.terms, store.slugs, store.nextTermId, store.taxonomies, store.nextTtId,
                  ChosenSlug(BaseSlug(terms[i].slug, sanitize), store.slugs));
      var slug;
      slug, mapping, ttIds := MigrateTerm(terms[i], store, sanitize, mapping, ttIds);
      i := i + 1;
    }
  }

  // ---------------------------------------------------------------------
  // Term relationships
  // ---------------------------------------------------------------------

  /**
   * A row of the legacy catalog table joined to the new product posts:
   * `product` is the post id (absent when no post matched the join), `parent`
   * the old term id, and `taxonomy` / `kind` the two ways newer and older
   * schemas mark a row as a category or a tag.
   */
  datatype CatalogRow = CatalogRow(product: Option<int>, parent: int, taxonomy: int, kind: string)

  /** A key of the `$wp_taxonomies` table: PHP array keys are integers or strings. */
  datatype Key = IntKey(i: int) | StrKey(s: string)

  /** `$wp_taxonomies[$key]`: the legacy markers `0`, `1`, `'category'`, `'tag'`; anything else is unset. */
  function WpTaxonomy(key: Key): (r: Option<Taxonomy>)
    ensures r == Some(ShoppCategory) <==> key == IntKey(0) || key == StrKey("category")
    ensures r == Some(ShoppTag) <==> key == IntKey(1) || key == StrKey("tag")
  {
    match key
    case IntKey(i) => if i == 0 then Some(ShoppCategory) else if i == 1 then Some(ShoppTag) else None
    case StrKey(s) => if s == "category" then Some(ShoppCategory) else if s == "tag" then Some(ShoppTag) else None
  }

  /** Schemas from 1.1.25 on mark rows by the integer `taxonomy` column, older ones by the `type` string. */
  function RowKey(row: CatalogRow, version: int): Key
  {
    if version >= 1125 then IntKey(row.taxonomy) else StrKey(row.kind)
  }

  /** The query's `WHERE` clause. */
  predicate Selected(row: CatalogRow, version: int)
  {
    if version >= 1125 then row.taxonomy == 0 || row.taxonomy == 1
    else row.kind == "category" || row.kind == "tag"
  }

  /** A row is selected exactly when its key is one of the legacy markers. */
  lemma SelectedIffTaxonomy(row: CatalogRow, version: int)
    ensures Selected(row, version) <==> WpTaxonomy(RowKey(row, version)).Some?
  {
  }

  /**
   * The term relationship `(object_id, term_taxonomy_id)` inserted for one
   * row, or `None` when the loop skips it: the row is not selected, its
   * taxonomy is unknown, its old term has no new id or no term-taxonomy id,
   * that id is 0, or no product post was joined (the insert is then malformed
   * and fails).
   */
  function Relationship(row: CatalogRow, version: int,
                        mapping: map<Taxonomy, map<int, int>>, ttIds: map<Taxonomy, map<int, int>>): Option<(int, int)>
  {
    if !Selected(row, version) then None
    else match WpTaxonomy(RowKey(row, version))
      case None => None
      case Some(tax) =>
        var m := Sub(mapping, tax);
        if row.parent !in m then None
        else
          var ids := Sub(ttIds, tax);
          if m[row.parent] !in ids || ids[m[row.parent]] == 0 || row.product.None? then None
          else Some((row.product.value, ids[m[row.parent]]))
  }

  /** The relationships inserted for the first `n` rows, in order. */
  function Relationships(rows: seq<CatalogRow>, n: nat, version: int,
                         mapping: map<Taxonomy, map<int, int>>, ttIds: map<Taxonomy, map<int, int>>): seq<(int, int)>
    requires n <= |rows|
  {
    if n == 0 then []
    else
      var init := Relationships(rows, n - 1, version, mapping, ttIds);
      match Relationship(rows[n - 1], version, mapping, ttIds)
      case None => init
      case Some(p) => init + [p]
  }

  /** A pair is inserted exactly when some row yields it. */
  lemma {:induction false} RelationshipsMembers(rows: seq<CatalogRow>, n: nat, version: int,
                                                 mapping: map<Taxonomy, map<int, int>>,
                                                 ttIds: map<Taxonomy, map<int, int>>, p: (int, int))
    requires n <= |rows|
    ensures p in Relationships(rows, n, version, mapping, ttIds)
      <==> exists i :: 0 <= i < n && Relationship(rows[i], version, mapping, ttIds) == Some(p)
  {
    if n > 0 {
      RelationshipsMembers(rows, n - 1, version, mapping, ttIds, p);
    }
  }

  /**
   * After the term loop, a selected row whose old term id belongs to its
   * taxonomy is linked to the term-taxonomy row of the last legacy term with
   * that id, unless that row's id is 0 or no product post was joined.
   */
  lemma RelationshipOfMigrated(terms: seq<LegacyTerm>, base: int, ttBase: int,
                               row: CatalogRow, version: int, tax: Taxonomy, i: int)
    requires Selected(row, version) && WpTaxonomy(RowKey(row, version)) == Some(tax)
    requires LastWith(terms, |terms|, tax, row.parent, i)
    ensures var r := Relationship(row, version, MappingAfter(terms, |terms|, base), TtIdsAfter(terms, |terms|, base, ttBase));
      r == if row.product.None? || ttBase + i == 0 then None else Some((row.product.value, ttBase + i))
  {
    MappingLookup(terms, |terms|, base, tax, row.parent);
    TtIdsLookup(terms, |terms|, base, ttBase, i);
  }

  /** A row whose old term id no legacy term of its taxonomy had is skipped. */
  lemma RelationshipOfUnknown(terms: seq<LegacyTerm>, base: int, ttBase: int,
                              row: CatalogRow, version: int, tax: Taxonomy)
    requires WpTaxonomy(RowKey(row, version)) == Some(tax)
    requires forall i :: 0 <= i < |terms| ==> !(terms[i].taxonomy == tax && terms[i].id == row.parent)
    ensures Relationship(row, version, MappingAfter(terms, |terms|, base), TtIdsAfter(terms, |terms|, base, ttBase)) == None
  {
    MappingLookup(terms, |terms|, base, tax, row.parent);
  }

  /** The relationship loop. */
  method LinkProducts(rows: seq<CatalogRow>, version: int,
                      mapping: map<Taxonomy, map<int, int>>, ttIds: map<Taxonomy, map<int, int>>)
    returns (rels: seq<(int, int)>)
    ensures rels == Relationships(rows, |rows|, version, mapping, ttIds)
  {
    rels := [];
    var i := 0;
    while i < |rows|
      invariant 0 <= i <= |rows|
      invariant rels == Relationships(rows, i, version, mapping, ttIds)
    {
      var r := rows[i];
      if Selected(r, version) {
        var taxonomy := WpTaxonomy(RowKey(r, version));
        if taxonomy.Some? {
          var m := Sub(mapping, taxonomy.value);
          if r.parent in m {
            var termId := m[r.parent];
            var ids := Sub(ttIds, taxonomy.value);
            if termId in ids {
              var ttId := ids[termId];
              if ttId != 0 && r.product.Some? {
                rels := rels + [(r.product.value, ttId)];
              }
            }
          }
        }
      }
      i := i + 1;
    }
  }
}
