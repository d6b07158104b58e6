/** The software table inside an expanded agent: a loading message, an
    empty-inventory message, or the inventory narrowed by a search on name
    or, when the item has one, vendor. */
module AgentSoftwareTable {
  import opened Wrappers
  import opened Seqs
  import opened Search

  datatype Software = Software(id: string, name: string, version: string, vendor: Option<string>, matchedCve: Option<string>)

  /** `name` matches, or `vendor?.…includes(…)` does; a missing vendor
      counts as no match. */
  predicate Keeps(search: string, item: Software) {
    Matches(item.name, search) || (item.vendor.Some? && Matches(item.vendor.value, search))
  }

  function KeepsFor(search: string): Software -> bool {
    (item: Software) => Keeps(search, item)
  }

  /** `filteredSoftware` */
  function Filtered(software: seq<Software>, search: string): (r: seq<Software>)
    ensures forall item :: item in r <==> item in software && Keeps(search, item)
    ensures forall item :: item in software && item.vendor.None? ==>
              (item in r <==> Matches(item.name, search))
    ensures IsSubseq(r, software) && |r| == KeptCount(software, KeepsFor(search))
  {
    FilterCount(software, KeepsFor(search));
    Filter(software, KeepsFor(search))
  }

  /** An empty search keeps every item, in order. */
  lemma EmptySearchKeepsAll(software: seq<Software>)
    ensures Filtered(software, "") == software
  {
    forall item | item in software ensures Keeps("", item) {
      EmptyTermMatches(item.name);
    }
    FilterKeepsAll(software, KeepsFor(""));
  }

  /** The vendor column: a missing or empty vendor shows as a dash. */
  function VendorCell(item: Software): (cell: string)
    ensures cell != ""
    ensures item.vendor.Some? && item.vendor.value != "" ==> cell == item.vendor.value
    ensures item.vendor.None? || item.vendor == Some("") ==> cell == "-"
  {
    if item.vendor.Some? && item.vendor.value != "" then item.vendor.value else "-"
  }

  /** What the component renders. */
  datatype View =
    | Loading
    | NoInventory
    | Table(count: nat, rows: seq<Software>, noMatches: bool)

  function Render(loading: bool, software: seq<Software>, search: string): (v: View)
    ensures loading ==> v.Loading?
    ensures !loading && software == [] ==> v.NoInventory?
    ensures !loading && software != [] ==> v.Table? && v.count == |software|
    ensures v.Table? ==> v.rows == Filtered(software, search)
    ensures v.Table? ==> (v.noMatches <==> forall item :: item in software ==> !Keeps(search, item))
  {
    if loading then Loading
    else if |software| == 0 then NoInventory
    else
      var rows := Filtered(software, search);
      assert rows != [] ==> rows[0] in rows;
      Table(|software|, rows, |rows| == 0)
  }
}
