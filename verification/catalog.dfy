/** The service catalog of the booking modal and the top-level view
    (src/App.tsx:23-72 and src/components/BookingModal.tsx:31-80 hold two
    literal copies with the same entries in the same order; the model keeps
    one), the lookup both do with `Array.prototype.find`, and the ids the
    "Get Started" buttons of the services section emit
    (src/components/Services.tsx:29-78). */
module Catalog {
  import opened Wrappers

  datatype Service = Service(
    id: string,
    title: string,
    description: string,
    price: string,
    duration: string,
    color: string)

  const Services: seq<Service> := [
    Service("web-dev", "Web Development",
      "Custom web applications built with cutting-edge technologies",
      "$2,500+", "2-4 weeks", "from-blue-500 to-cyan-500"),
    Service("ui-ux", "UI/UX Design",
      "Beautiful, intuitive designs that provide exceptional user experiences",
      "$1,500+", "1-2 weeks", "from-purple-500 to-pink-500"),
    Service("performance", "Performance Optimization",
      "Lightning-fast websites optimized for speed and user engagement",
      "$800+", "3-5 days", "from-yellow-500 to-orange-500"),
    Service("security", "Security Audit",
      "Enterprise-grade security measures to protect your digital assets",
      "$1,200+", "1 week", "from-green-500 to-emerald-500"),
    Service("seo", "SEO Optimization",
      "Strategic optimization to improve your search engine rankings",
      "$600+", "2-3 weeks", "from-indigo-500 to-blue-500"),
    Service("mobile", "Mobile Development",
      "Responsive designs that work perfectly on all devices and screen sizes",
      "$3,000+", "3-6 weeks", "from-red-500 to-pink-500")
  ]

  /** The ids passed to `onBookService` by the cards of the services
      section. */
  const CardIds: seq<string> := [
    "branding", "it-solutions", "gaming", "digital-services", "connectivity", "entertainment"
  ]

  /** The ids of a catalog, in catalog order. */
  function Ids(catalog: seq<Service>): (ids: seq<string>)
    ensures |ids| == |catalog|
    ensures forall k :: 0 <= k < |catalog| ==> ids[k] == catalog[k].id
  {
    seq(|catalog|, k requires 0 <= k < |catalog| => catalog[k].id)
  }

  /** `catalog.findIndex(s => s.id === id)`, with `|catalog|` standing for
      "not found". */
  function FindIndex(catalog: seq<Service>, id: string): (k: nat)
    ensures k <= |catalog|
    ensures forall j :: 0 <= j < k ==> catalog[j].id != id
    ensures k < |catalog| ==> catalog[k].id == id
  {
    if |catalog| == 0 then 0
    else if catalog[0].id == id then 0
    else 1 + FindIndex(catalog[1..], id)
  }

  /** `catalog.find(s => s.id === id)`: the first entry with that id, or
      None when no entry has it. */
  function Find(catalog: seq<Service>, id: string): (r: Option<Service>)
    ensures r.None? <==> forall k :: 0 <= k < |catalog| ==> catalog[k].id != id
    ensures r.Some? ==> exists k :: && 0 <= k < |catalog|
                                    && catalog[k] == r.value
                                    && r.value.id == id
                                    && forall j :: 0 <= j < k ==> catalog[j].id != id
    ensures r.None? <==> id !in Ids(catalog)
    ensures r.Some? ==> r.value in catalog && r.value.id == id
  {
    var k := FindIndex(catalog, id);
    if k < |catalog| then
      assert Ids(catalog)[k] == id;
      Some(catalog[k])
    else None
  }

  /** No two entries share an id. */
  predicate DistinctIds(catalog: seq<Service>) {
    forall i, j :: 0 <= i < j < |catalog| ==> catalog[i].id != catalog[j].id
  }

  /** In a catalog with distinct ids the lookup of an entry's id finds
      exactly that entry. */
  lemma FindUnique(catalog: seq<Service>, k: nat)
    requires DistinctIds(catalog)
    requires k < |catalog|
    ensures Find(catalog, catalog[k].id) == Some(catalog[k])
  {
    assert FindIndex(catalog, catalog[k].id) == k;
  }

  /** The catalog's ids are pairwise distinct, so every lookup match is
      unique. */
  lemma ServicesDistinct()
    ensures DistinctIds(Services)
  {
  }

  /** Looking up a listed id always finds an entry with that id. */
  lemma FindListed(catalog: seq<Service>, id: string)
    requires id in Ids(catalog)
    ensures Find(catalog, id).Some? && Find(catalog, id).value.id == id
  {
    var k :| 0 <= k < |catalog| && Ids(catalog)[k] == id;
    assert catalog[k].id == id;
  }

  /** No id a services card emits names a catalog entry. */
  lemma CardsOutsideCatalog(id: string)
    requires id in CardIds
    ensures Find(Services, id).None?
  {
    assert Ids(Services) == ["web-dev", "ui-ux", "performance", "security", "seo", "mobile"];
    assert id !in Ids(Services);
  }
}
