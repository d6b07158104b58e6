/** The software inventory page: the inventory is the backend's list, or a
    built-in sample list when that is empty or the request fails, and a
    search box narrows it by name or vendor. */
module SoftwareHub {
  import opened Seqs
  import opened Fetch
  import opened Search

  datatype Software = Software(
    id: string, name: string, version: string, vendor: string,
    installCount: nat, vulnerabilities: nat, riskLevel: string)

  /** The inventory the page installs after its request: the sample list is
      a parameter. */
  function Inventory(resp: Response<Software>, sample: seq<Software>): (r: seq<Software>)
    ensures HasData(resp) ==> r == resp.data.value
    ensures !HasData(resp) ==> r == sample
    ensures |sample| > 0 ==> |r| > 0
  {
    OrFallback(resp, sample)
  }

  /** The search predicate: the name or the vendor contains the term,
      ignoring case. */
  predicate Keeps(term: string, sw: Software) {
    Matches(sw.name, term) || Matches(sw.vendor, term)
  }

  function KeepsFor(term: string): Software -> bool {
    (sw: Software) => Keeps(term, sw)
  }

  /** `filteredSoftware` */
  function Filtered(inventory: seq<Software>, term: string): (r: seq<Software>)
    ensures forall sw :: sw in r <==> sw in inventory && Keeps(term, sw)
    ensures IsSubseq(r, inventory) && |r| == KeptCount(inventory, KeepsFor(term))
  {
    FilterCount(inventory, KeepsFor(term));
    Filter(inventory, KeepsFor(term))
  }

  /** An empty search keeps the whole inventory, in order. */
  lemma EmptySearchKeepsAll(inventory: seq<Software>)
    ensures Filtered(inventory, "") == inventory
  {
    forall sw | sw in inventory ensures Keeps("", sw) {
      EmptyTermMatches(sw.name);
    }
    FilterKeepsAll(inventory, KeepsFor(""));
  }

  /** The search ignores the case of the term. */
  lemma SearchIgnoresCase(inventory: seq<Software>, term: string)
    ensures Filtered(inventory, term) == Filtered(inventory, Strings.Lower(term))
  {
    forall sw | sw in inventory ensures Keeps(term, sw) == Keeps(Strings.Lower(term), sw) {
      MatchIgnoresTermCase(sw.name, term);
      MatchIgnoresTermCase(sw.vendor, term);
    }
    FilterCongruent(inventory, KeepsFor(term), KeepsFor(Strings.Lower(term)));
  }

  /** "No software found matching your search." is shown exactly when no
      item matches. */
  lemma NoneFoundIff(inventory: seq<Software>, term: string)
    ensures |Filtered(inventory, term)| == 0 <==> forall sw :: sw in inventory ==> !Keeps(term, sw)
  {
    var r := Filtered(inventory, term);
    if r != [] {
      assert r[0] in r;
    }
  }
}
