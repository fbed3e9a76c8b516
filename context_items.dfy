/** The catalog of context items a partner manifest can ask Dragon Copilot to retrieve, the
    lookup by name, and the default item list built from it. */
module ContextItems {
  import opened Text

  datatype YesNo = Yes | No

  /** `ContextItemCatalogEntry`. */
  datatype CatalogEntry = CatalogEntry(
    name: string,
    itemType: string,
    description: string,
    defaultRequired: YesNo,
    defaultInclude: bool)

  /** `ContextRetrievalItem`; a clone never sets the optional default value. */
  datatype ContextRetrievalItem = ContextRetrievalItem(
    name: string,
    itemType: string,
    description: string,
    required: YesNo,
    defaultValue: Option<string>)

  /** `CONTEXT_ITEM_CATALOG`. */
  const Catalog: seq<CatalogEntry> := [
    CatalogEntry("base_url", "url", "base url need for API calls.  These are typically FHIR calls.", Yes, true),
    CatalogEntry("ehr-user_id", "string", "optional EHR user id for FHIR API calls.", No, true),
    CatalogEntry("in-bound-client-id", "string", "credential for inbound calls to interop", Yes, true),
    CatalogEntry("in-bound-issuer", "url", "issuer claim of access tokens used by the partner to call Dragon Copilot Interop", Yes, true),
    CatalogEntry("out-bound-issuer", "url", "endpoint used to issue access token for Dragon Copilot Interop to call partner", Yes, true),
    CatalogEntry("out-bound-client-id", "string", "Partner-provided client ID used to issue access tokens for Dragon Copilot Interop to call the partner", Yes, true),
    CatalogEntry("out-bound-secret", "string", "Partner-provided secret used to issue access tokens for Dragon Copilot Interop to call the partner", Yes, true)
  ]

  /** The names of the entries, in catalog order. */
  function Names(catalog: seq<CatalogEntry>): (r: seq<string>)
    ensures |r| == |catalog|
    ensures forall i :: 0 <= i < |r| ==> r[i] == catalog[i].name
  {
    seq(|catalog|, i requires 0 <= i < |catalog| => catalog[i].name)
  }

  predicate NamesDistinct(catalog: seq<CatalogEntry>) {
    forall i, j :: 0 <= i < j < |catalog| ==> catalog[i].name != catalog[j].name
  }

  /** `new Map(catalog.map(entry => [entry.name, entry]))`: entries are set in catalog order,
      so a later entry with the same name replaces an earlier one. */
  function CatalogMap(catalog: seq<CatalogEntry>): (m: map<string, CatalogEntry>)
    ensures forall k :: k in m <==> k in Names(catalog)
    ensures forall k :: k in m ==> m[k] in catalog && m[k].name == k
  {
    if catalog == [] then map[]
    else
      var init := catalog[..|catalog| - 1];
      var last := catalog[|catalog| - 1];
      var m := CatalogMap(init)[last.name := last];
      assert Names(catalog) == Names(init) + [last.name];
      m
  }

  /** With distinct names, the map holds each entry under its own name. */
  lemma {:induction false} CatalogMapOfDistinct(catalog: seq<CatalogEntry>, i: nat)
    requires NamesDistinct(catalog) && i < |catalog|
    ensures catalog[i].name in CatalogMap(catalog) && CatalogMap(catalog)[catalog[i].name] == catalog[i]
  {
    var init := catalog[..|catalog| - 1];
    if i < |catalog| - 1 {
      CatalogMapOfDistinct(init, i);
    }
  }

  /** `getContextItemDefinition`. */
  function GetContextItemDefinition(catalog: seq<CatalogEntry>, name: string): (r: Option<CatalogEntry>)
    ensures r.Some? <==> name in Names(catalog)
    ensures r.Some? ==> r.value in catalog && r.value.name == name
  {
    var m := CatalogMap(catalog);
    if name in m then Some(m[name]) else None
  }

  /** `cloneContextItem`: the entry's name, type and description, and its default
      requirement as `required`; nothing for an unknown name. */
  function CloneContextItem(catalog: seq<CatalogEntry>, name: string): (r: Option<ContextRetrievalItem>)
    ensures r.None? <==> name !in Names(catalog)
    ensures r.Some? ==> exists e :: e in catalog && e.name == name && r.value == Clone(e)
  {
    var d := GetContextItemDefinition(catalog, name);
    if d.None? then None else Some(Clone(d.value))
  }

  /** The item a clone of `e` yields. */
  function Clone(e: CatalogEntry): (item: ContextRetrievalItem)
    ensures item.name == e.name && item.itemType == e.itemType && item.description == e.description
    ensures item.required == e.defaultRequired && item.defaultValue.None?
  {
    ContextRetrievalItem(e.name, e.itemType, e.description, e.defaultRequired, None)
  }

  /** `REQUIRED_CONTEXT_ITEM_NAMES`: the catalog filtered to the entries included by
      default, then mapped to names. */
  function RequiredNames(catalog: seq<CatalogEntry>): seq<string> {
    Names(Included(catalog))
  }

  /** The entries included by default, in catalog order. */
  function Included(catalog: seq<CatalogEntry>): (r: seq<CatalogEntry>)
    ensures forall e :: e in r <==> e in catalog && e.defaultInclude
  {
    if catalog == [] then []
    else
      var rest := Included(catalog[1..]);
      assert forall e :: e in catalog <==> e == catalog[0] || e in catalog[1..];
      (if catalog[0].defaultInclude then [catalog[0]] else []) + rest
  }

  /** `getDefaultContextItems`: a clone per required name, unknown names skipped (none are,
      see `DefaultItemsOnePerName`). */
  function DefaultContextItems(catalog: seq<CatalogEntry>, names: seq<string>): (r: seq<ContextRetrievalItem>)
    ensures |r| <= |names|
  {
    if names == [] then []
    else
      var c := CloneContextItem(catalog, names[0]);
      (if c.Some? then [c.value] else []) + DefaultContextItems(catalog, names[1..])
  }

  /** When every name is in the catalog nothing is skipped: one item per name, in order,
      each the clone of the entry of that name. */
  lemma {:induction false} DefaultItemsOnePerName(catalog: seq<CatalogEntry>, names: seq<string>)
    requires forall k :: k in names ==> k in Names(catalog)
    ensures var r := DefaultContextItems(catalog, names);
            |r| == |names| && forall i :: 0 <= i < |r| ==> Some(r[i]) == CloneContextItem(catalog, names[i])
  {
    if names != [] {
      assert names[0] in names;
      DefaultItemsOnePerName(catalog, names[1..]);
      var r := DefaultContextItems(catalog, names);
      var rest := DefaultContextItems(catalog, names[1..]);
      assert r == [CloneContextItem(catalog, names[0]).value] + rest;
      forall i | 0 <= i < |r| ensures Some(r[i]) == CloneContextItem(catalog, names[i]) {
        if i > 0 {
          assert r[i] == rest[i - 1];
          assert names[i] == names[1..][i - 1];
        }
      }
    }
  }

  /** The default items of a catalog: one clone per entry included by default, in catalog
      order, with its name, type, description and default requirement. */
  lemma DefaultItemsOfCatalog(catalog: seq<CatalogEntry>)
    requires NamesDistinct(catalog)
    ensures var r := DefaultContextItems(catalog, RequiredNames(catalog));
            var inc := Included(catalog);
            |r| == |inc| && forall i :: 0 <= i < |r| ==> r[i] == Clone(inc[i])
  {
    var names := RequiredNames(catalog);
    forall k | k in names ensures k in Names(catalog) {
      var j :| 0 <= j < |names| && names[j] == k;
      assert Included(catalog)[j] in catalog;
    }
    DefaultItemsOnePerName(catalog, names);
    var inc := Included(catalog);
    var r := DefaultContextItems(catalog, names);
    forall i | 0 <= i < |r| ensures r[i] == Clone(inc[i]) {
      var e := inc[i];
      assert e in catalog;
      var j :| 0 <= j < |catalog| && catalog[j] == e;
      CatalogMapOfDistinct(catalog, j);
    }
  }

  /** The catalog holds seven entries with distinct names, every one included by default. */
  lemma CatalogShape(catalog: seq<CatalogEntry>)
    requires catalog == Catalog
    ensures |catalog| == 7
    ensures NamesDistinct(catalog)
    ensures forall i :: 0 <= i < |catalog| ==> catalog[i].defaultInclude
  {
  }

  /** Every entry is included, so the required names are all seven names in catalog order. */
  lemma RequiredNamesAreAllNames(catalog: seq<CatalogEntry>)
    requires catalog == Catalog
    ensures RequiredNames(catalog) == Names(catalog)
  {
    CatalogShape(catalog);
    AllIncluded(catalog);
  }

  lemma {:induction false} AllIncluded(catalog: seq<CatalogEntry>)
    requires forall i :: 0 <= i < |catalog| ==> catalog[i].defaultInclude
    ensures Included(catalog) == catalog
  {
    if catalog != [] {
      AllIncluded(catalog[1..]);
    }
  }

  /** `getDefaultContextItems()` on the catalog: the seven entries cloned, in order. */
  lemma DefaultItemsAreCatalogClones(catalog: seq<CatalogEntry>)
    requires catalog == Catalog
    ensures var r := DefaultContextItems(catalog, RequiredNames(catalog));
            |r| == |catalog| && forall i :: 0 <= i < |r| ==> r[i] == Clone(catalog[i])
  {
    CatalogShape(catalog);
    DefaultItemsOfCatalog(catalog);
    AllIncluded(catalog);
  }

  /** An unknown name has no definition and no clone. */
  lemma UnknownNameNotCloned(catalog: seq<CatalogEntry>, name: string)
    requires catalog == Catalog
    requires name !in Names(catalog)
    ensures GetContextItemDefinition(catalog, name).None? && CloneContextItem(catalog, name).None?
  {
  }
}
