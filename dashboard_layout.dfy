/** The sidebar of the dashboard shell: the navigation groups, the rule that
    decides which of them a signed-in user sees, and the collapse toggle. */
module DashboardLayout {
  import opened Wrappers
  import opened Seqs

  /** The fields of the signed-in user the sidebar reads. */
  datatype User = User(role: Option<string>, isSuperuser: Option<bool>)

  datatype NavItem = NavItem(caption: string, path: string)

  /** A titled group of links, optionally restricted to a list of roles. */
  datatype NavGroup = NavGroup(title: Option<string>, roles: Option<seq<string>>, items: seq<NavItem>)

  const AdminTitle: string := "ADMINISTRATION"

  const Main := NavGroup(Some("MAIN"), None, [
    NavItem("CXOs Dashboard", "/cxo-dashboard"),
    NavItem("Dashboard", "/dashboard"),
    NavItem("My Tasks", "/tasks")])

  const Observability := NavGroup(Some("OBSERVABILITY"), None, [
    NavItem("Insights", "/insights"),
    NavItem("Tracing", "/tracing"),
    NavItem("Reporting", "/reporting"),
    NavItem("Log Explorer", "/logs"),
    NavItem("Network", "/network"),
    NavItem("Agents", "/agents"),
    NavItem("Live Monitor", "/monitor"),
    NavItem("Software Hub", "/software"),
    NavItem("Assets", "/assets"),
    NavItem("Job Orchestration", "/jobs")])

  const Security := NavGroup(Some("SECURITY"), None, [
    NavItem("Patching", "/patching"),
    NavItem("Cloud Security", "/cloud-security"),
    NavItem("IaC Manager", "/iac"),
    NavItem("Security Ops", "/sec-ops"),
    NavItem("Threat Hunting", "/threat-hunting"),
    NavItem("Threat Intelligence", "/threat-intel"),
    NavItem("Incident Impact", "/incidents"),
    NavItem("Data Security", "/data-security"),
    NavItem("Attack Paths", "/attack-paths"),
    NavItem("Alerts", "/alerts")])

  const DevPlatform := NavGroup(Some("DEV & PLATFORM"), None, [
    NavItem("DevSecOps", "/devsecops"),
    NavItem("DORA Metrics", "/dora"),
    NavItem("Service Catalog", "/catalog"),
    NavItem("Chaos Engineering", "/chaos"),
    NavItem("Developer Hub", "/dev-hub")])

  const Governance := NavGroup(Some("GOVERNANCE"), None, [
    NavItem("Compliance", "/compliance"),
    NavItem("AI Governance", "/ai-gov"),
    NavItem("LLMOps & Knowledge", "/llmops"),
    NavItem("Automation", "/automation")])

  const Administration := NavGroup(Some(AdminTitle), Some(["admin"]), [
    NavItem("FinOps & Billing", "/finops"),
    NavItem("Service Pricing", "/pricing"),
    NavItem("Audit Log", "/audit-logs"),
    NavItem("Webhooks", "/webhooks"),
    NavItem("Settings", "/settings"),
    NavItem("Tenants", "/tenants")])

  const Vision := NavGroup(Some("2030 VISION"), Some(["admin", "analyst", "viewer"]), [
    NavItem("Sustainability", "/sustainability"),
    NavItem("Zero Trust & Quantum", "/zero-trust"),
    NavItem("Future Ops", "/future-ops"),
    NavItem("Swarm Intelligence", "/swarm")])

  /** The sidebar's groups, in display order. */
  const NavGroups: seq<NavGroup> :=
    [Main, Observability, Security, DevPlatform, Governance, Administration, Vision]

  /** `user?.role || 'viewer'`: a missing user, a missing role and an empty
      role all count as a viewer. */
  function EffectiveRole(user: Option<User>): (role: string)
    ensures role != ""
    ensures user.Some? && user.value.role.Some? && user.value.role.value != "" ==> role == user.value.role.value
    ensures user.None? || user.value.role.None? || user.value.role == Some("") ==> role == "viewer"
  {
    if user.Some? && user.value.role.Some? && user.value.role.value != "" then user.value.role.value
    else "viewer"
  }

  /** The predicate of `filteredNavGroups`. */
  predicate Visible(user: Option<User>, g: NavGroup) {
    if g.title == Some(AdminTitle) then user.Some? && user.value.isSuperuser == Some(true)
    else if g.roles.None? then true
    else EffectiveRole(user) in g.roles.value
  }

  /** `filteredNavGroups`: the visible groups, in their original order and
      with their items untouched. */
  function FilterNav(user: Option<User>, groups: seq<NavGroup>): (r: seq<NavGroup>)
    ensures IsSubseq(r, groups) && |r| == KeptCount(groups, VisibleTo(user))
    ensures forall g :: g in r <==> g in groups && Visible(user, g)
  {
    FilterCount(groups, VisibleTo(user));
    Filter(groups, VisibleTo(user))
  }

  function VisibleTo(user: Option<User>): NavGroup -> bool {
    (g: NavGroup) => Visible(user, g)
  }

  /** The administration group is shown exactly to superusers, whatever its
      role list says; a group without a role list is shown to everybody; any
      other group is shown exactly when the user's role, defaulting to
      "viewer", is listed. */
  lemma {:induction false} VisibilityRules(user: Option<User>, groups: seq<NavGroup>, g: NavGroup)
    requires g in groups
    ensures g.title == Some(AdminTitle) ==>
              (g in FilterNav(user, groups) <==> user.Some? && user.value.isSuperuser == Some(true))
    ensures g.title != Some(AdminTitle) && g.roles.None? ==> g in FilterNav(user, groups)
    ensures g.title != Some(AdminTitle) && g.roles.Some? ==>
              (g in FilterNav(user, groups) <==>
                 if user.Some? && user.value.role.Some? && user.value.role.value != ""
                 then user.value.role.value in g.roles.value
                 else "viewer" in g.roles.value)
  {
    assert g in FilterNav(user, groups) <==> Visible(user, g);
  }

  /** Signed out, or signed in without the superuser flag, a user sees every
      group but the administration one, in order. */
  lemma NonSuperuserView(user: Option<User>)
    requires user.None? || (user.value.isSuperuser != Some(true) && user.value.role.None?)
    ensures NavGroups[5] == Administration
    ensures FilterNav(user, NavGroups) == NavGroups[..5] + NavGroups[6..]
  {
    var keep := VisibleTo(user);
    forall i | 0 <= i < |NavGroups| ensures keep(NavGroups[i]) <==> i != 5 {
      if i == 0 { assert NavGroups[i] == Main; }
      else if i == 1 { assert NavGroups[i] == Observability; }
      else if i == 2 { assert NavGroups[i] == Security; }
      else if i == 3 { assert NavGroups[i] == DevPlatform; }
      else if i == 4 { assert NavGroups[i] == Governance; }
      else if i == 5 { assert NavGroups[i] == Administration; }
      else { assert NavGroups[i] == Vision; }
    }
    FilterDropsOne(NavGroups, keep, 5);
  }

  /** A role outside the vision group's list ("auditor") loses that group,
      while a superuser keeps the administration group even with that role. */
  lemma UnlistedRoleView()
    ensures Vision !in FilterNav(Some(User(Some("auditor"), Some(true))), NavGroups)
    ensures Administration in FilterNav(Some(User(Some("auditor"), Some(true))), NavGroups)
  {
    var user := Some(User(Some("auditor"), Some(true)));
    assert NavGroups[5] == Administration && NavGroups[6] == Vision;
    assert EffectiveRole(user) == "auditor";
    assert "auditor" != "admin" && "auditor" != "analyst" && "auditor" != "viewer";
    assert !Visible(user, Vision);
    assert Visible(user, Administration);
  }

  /** The collapsible sidebar. */
  class Sidebar {
    /** The `isSidebarOpen` state cell. */
    var isOpen: bool

    constructor ()
      ensures isOpen
    {
      isOpen := true;
    }

    /** The header's menu button. */
    method Toggle()
      modifies this
      ensures isOpen == !old(isOpen)
    {
      isOpen := !isOpen;
    }
  }
}
