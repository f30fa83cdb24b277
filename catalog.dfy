/** The indicator catalog: the allow-list filter, the sort by description and
    the lookup of the identifier that belongs to the chosen description. */
module Catalog {
  import opened Records

  datatype CatalogEntry = CatalogEntry(id: int, description: string)

  /** The only indicator identifiers offered for selection. */
  const AllowedIds: set<int> := {15, 1}

  /** Python's ordering of `str` values: lexicographic by code point. */
  predicate TextLe(a: string, b: string) {
    if a == [] then true
    else if b == [] then false
    else if a[0] != b[0] then a[0] < b[0]
    else TextLe(a[1..], b[1..])
  }

  lemma {:induction false} TextLeTotal(a: string, b: string)
    ensures TextLe(a, b) || TextLe(b, a)
  {
    if a != [] && b != [] && a[0] == b[0] {
      TextLeTotal(a[1..], b[1..]);
    }
  }

  lemma {:induction false} TextLeTransitive(a: string, b: string, c: string)
    requires TextLe(a, b) && TextLe(b, c)
    ensures TextLe(a, c)
  {
    if a != [] && b != [] && c != [] && a[0] == b[0] && b[0] == c[0] {
      TextLeTransitive(a[1..], b[1..], c[1..]);
    }
  }

  /** The `isin([15, 1])` row filter: keeps the allow-listed entries, each as
      often as it occurs, in their original order. */
  function FilterAllowed(entries: seq<CatalogEntry>): (kept: seq<CatalogEntry>)
    ensures forall e :: e in kept <==> e in entries && e.id in AllowedIds
    ensures forall e :: multiset(kept)[e] == if e.id in AllowedIds then multiset(entries)[e] else 0
  {
    if entries == [] then []
    else
      assert entries == [entries[0]] + entries[1..];
      (if entries[0].id in AllowedIds then [entries[0]] else []) + FilterAllowed(entries[1..])
  }

  /** Each entry's description is at most the next one's. */
  predicate SortedByDescription(s: seq<CatalogEntry>) {
    forall i :: 0 < i < |s| ==> TextLe(s[i - 1].description, s[i].description)
  }

  /** In a sorted table every earlier description is at most every later one. */
  lemma {:induction false} SortedAllPairs(s: seq<CatalogEntry>, i: int, j: int)
    requires SortedByDescription(s) && 0 <= i <= j < |s|
    ensures TextLe(s[i].description, s[j].description)
    decreases j - i
  {
    if i == j {
      TextLeReflexive(s[i].description);
    } else {
      SortedAllPairs(s, i + 1, j);
      TextLeTransitive(s[i].description, s[i + 1].description, s[j].description);
    }
  }

  lemma {:induction false} TextLeReflexive(a: string)
    ensures TextLe(a, a)
  {
    if a != [] {
      TextLeReflexive(a[1..]);
    }
  }

  function InsertByDescription(e: CatalogEntry, s: seq<CatalogEntry>): (r: seq<CatalogEntry>)
    requires SortedByDescription(s)
    ensures SortedByDescription(r)
    ensures multiset(r) == multiset(s) + multiset{e}
    ensures r[0] == e || r[0] == s[0]
  {
    if s == [] then [e]
    else if TextLe(e.description, s[0].description) then [e] + s
    else
      TextLeTotal(e.description, s[0].description);
      assert s == [s[0]] + s[1..];
      [s[0]] + InsertByDescription(e, s[1..])
  }

  /** `sort_values("descripcion")`: orders the table by description. */
  function SortByDescription(entries: seq<CatalogEntry>): (sorted: seq<CatalogEntry>)
    ensures SortedByDescription(sorted)
    ensures multiset(sorted) == multiset(entries)
  {
    if entries == [] then []
    else
      assert entries == [entries[0]] + entries[1..];
      InsertByDescription(entries[0], SortByDescription(entries[1..]))
  }

  /** Position of the first row whose description is `chosen`, or |table| when
      there is none. */
  function FirstWithDescription(table: seq<CatalogEntry>, chosen: string): (k: nat)
    ensures k <= |table|
    ensures forall j :: 0 <= j < k ==> table[j].description != chosen
    ensures k < |table| ==> table[k].description == chosen
  {
    if table == [] then 0
    else if table[0].description == chosen then 0
    else 1 + FirstWithDescription(table[1..], chosen)
  }

  /** `df[df["descripcion"] == chosen].iloc[0]["idVariable"]`; None stands for
      the IndexError `iloc[0]` raises when no row matches. */
  function SelectId(table: seq<CatalogEntry>, chosen: string): (id: Option<int>)
    ensures id.None? <==> forall e :: e in table ==> e.description != chosen
    ensures id.Some? ==> exists k :: 0 <= k < |table| && table[k].description == chosen && table[k].id == id.value
                                     && forall j :: 0 <= j < k ==> table[j].description != chosen
  {
    var k := FirstWithDescription(table, chosen);
    if k < |table| then Some(table[k].id) else None
  }

  /** The catalog stage as a whole: filter, sort, then look up the chosen description. */
  function ChooseVariable(catalog: seq<CatalogEntry>, chosen: string): Option<int> {
    SelectId(SortByDescription(FilterAllowed(catalog)), chosen)
  }

  /** A selection succeeds exactly when some allow-listed catalog entry carries the
      chosen description, and the identifier it yields is an allow-listed one that
      the catalog pairs with that description. */
  lemma ChooseVariableSpec(catalog: seq<CatalogEntry>, chosen: string)
    ensures ChooseVariable(catalog, chosen).Some? <==>
            exists e :: e in catalog && e.id in AllowedIds && e.description == chosen
    ensures ChooseVariable(catalog, chosen).Some? ==>
            var id := ChooseVariable(catalog, chosen).value;
            id in AllowedIds && CatalogEntry(id, chosen) in catalog
  {
    var kept := FilterAllowed(catalog);
    var sorted := SortByDescription(kept);
    assert forall e :: e in sorted <==> e in kept by {
      forall e ensures e in sorted <==> e in kept {
        assert e in sorted <==> e in multiset(sorted);
      }
    }
  }
}
