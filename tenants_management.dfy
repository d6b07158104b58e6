/** The tenant administration page: tenants from the backend are renamed
    from snake_case to camelCase fields, a built-in sample list stands in
    when there are none, and a search box narrows the list by name. */
module TenantsManagement {
  import opened Seqs
  import opened Fetch
  import opened Search

  /** A tenant as the backend sends it. */
  datatype ApiTenant = ApiTenant(
    id: string, name: string, status: string,
    agent_count: int, agent_limit: int, plan: string, created_at: string)

  /** A tenant as the table shows it. */
  datatype Tenant = Tenant(
    id: string, name: string, status: string,
    agentCount: int, agentLimit: int, plan: string, createdAt: string)

  /** The field renaming of one tenant. */
  function ToTenant(t: ApiTenant): (r: Tenant)
    ensures r.id == t.id && r.name == t.name && r.status == t.status && r.plan == t.plan
    ensures r.agentCount == t.agent_count && r.agentLimit == t.agent_limit
    ensures r.createdAt == t.created_at
  {
    Tenant(t.id, t.name, t.status, t.agent_count, t.agent_limit, t.plan, t.created_at)
  }

  /** The renaming backwards. */
  function FromTenant(t: Tenant): ApiTenant {
    ApiTenant(t.id, t.name, t.status, t.agentCount, t.agentLimit, t.plan, t.createdAt)
  }

  /** The renaming loses nothing, in either direction. */
  lemma RenamingRoundTrips(a: ApiTenant, t: Tenant)
    ensures FromTenant(ToTenant(a)) == a
    ensures ToTenant(FromTenant(t)) == t
  {
  }

  /** The list the page installs after its request: the renamed backend
      list when it has rows, otherwise the sample list. */
  function LoadTenants(resp: Response<ApiTenant>, sample: seq<Tenant>): (r: seq<Tenant>)
    ensures HasData(resp) ==> |r| == |resp.data.value|
    ensures HasData(resp) ==> forall i :: 0 <= i < |r| ==> FromTenant(r[i]) == resp.data.value[i]
    ensures !HasData(resp) ==> r == sample
  {
    if HasData(resp) then Map(ToTenant, resp.data.value) else sample
  }

  predicate Keeps(term: string, t: Tenant) {
    Matches(t.name, term)
  }

  function KeepsFor(term: string): Tenant -> bool {
    (t: Tenant) => Keeps(term, t)
  }

  /** `filteredTenants`: by name only. */
  function Filtered(tenants: seq<Tenant>, term: string): (r: seq<Tenant>)
    ensures forall t :: t in r <==> t in tenants && Matches(t.name, term)
    ensures IsSubseq(r, tenants) && |r| == KeptCount(tenants, KeepsFor(term))
  {
    FilterCount(tenants, KeepsFor(term));
    Filter(tenants, KeepsFor(term))
  }

  /** What the page renders from its state: the "Total Tenants" card and
      the rows handed to the tenant table. The other two cards are fixed
      text. */
  datatype View = View(total: nat, rows: seq<Tenant>)

  /** The page for the installed list and the search box's text: the card
      counts the whole list, the table gets the filtered one. */
  function Render(tenants: seq<Tenant>, term: string): (v: View)
    ensures v.total == |tenants|
    ensures v.rows == Filtered(tenants, term)
    ensures forall t :: t in v.rows <==> t in tenants && Matches(t.name, term)
    ensures |v.rows| <= v.total
  {
    View(|tenants|, Filtered(tenants, term))
  }

  /** With an empty search the table lists every tenant, so the card and the
      table agree. */
  lemma {:induction false} EmptySearchShowsAll(tenants: seq<Tenant>)
    ensures Render(tenants, "").rows == tenants
    ensures Render(tenants, "").total == |Render(tenants, "").rows|
  {
    forall t | t in tenants ensures Keeps("", t) {
      EmptyTermMatches(t.name);
    }
    FilterKeepsAll(tenants, KeepsFor(""));
  }
}
