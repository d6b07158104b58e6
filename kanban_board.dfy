/** The incident Kanban board of the SOAR page: incidents fetched from the
    backend are normalised into cards and grouped into four fixed columns,
    and dragging a card over another column moves it there.

    The board's two state cells, `items` (column key to ordered cards) and
    `activeId` (the card being dragged), are the fields of class `Board`; the
    grouping and the drag-over update are the pure functions they are
    specified by. */
module KanbanBoard {
  import opened Wrappers
  import opened Strings
  import opened Seqs

  // ---------------------------------------------------------------------------
  // Columns and cards
  // ---------------------------------------------------------------------------

  datatype ColumnId = New | Analysis | Containment | Resolved

  /** The record key of a column. */
  function Key(c: ColumnId): string {
    match c
    case New => "new"
    case Analysis => "analysis"
    case Containment => "containment"
    case Resolved => "resolved"
  }

  /** Position of a column in the record's key order, which is the order
      `Object.keys(items)` visits them in. */
  function Rank(c: ColumnId): nat {
    match c
    case New => 0
    case Analysis => 1
    case Containment => 2
    case Resolved => 3
  }

  /** `id in items`: the column whose key is `id`, if there is one. */
  function ColumnOfKey(id: string): (r: Option<ColumnId>)
    ensures r.Some? ==> Key(r.value) == id
    ensures r.None? ==> forall c :: Key(c) != id
  {
    if id == "new" then Some(New)
    else if id == "analysis" then Some(Analysis)
    else if id == "containment" then Some(Containment)
    else if id == "resolved" then Some(Resolved)
    else None
  }

  /** A card as the board shows it. The severity is kept as the string the
      normaliser produced: it is not checked against the four severities. */
  datatype Incident = Incident(
    id: string,
    title: string,
    severity: string,
    assignedTo: string,
    description: string,
    timestamp: string)

  /** An incident as the backend delivers it; every field the normaliser
      reads may be missing. */
  datatype RawIncident = RawIncident(
    id: string,
    title: string,
    status: Option<string>,
    impactLevel: Option<string>,
    affectedServices: Option<seq<string>>)

  /** The board's `items` record: one ordered list of cards per column key.
      The record always has exactly the four keys, so it is a value with one
      field per column. */
  datatype Store = Store(
    newCards: seq<Incident>,
    analysisCards: seq<Incident>,
    containmentCards: seq<Incident>,
    resolvedCards: seq<Incident>)
  {
    /** `items[c]` */
    function Get(c: ColumnId): seq<Incident> {
      match c
      case New => newCards
      case Analysis => analysisCards
      case Containment => containmentCards
      case Resolved => resolvedCards
    }

    /** `{ ...items, [c]: v }` */
    function With(c: ColumnId, v: seq<Incident>): (r: Store)
      ensures r.Get(c) == v
      ensures forall d :: d != c ==> r.Get(d) == Get(d)
    {
      match c
      case New => this.(newCards := v)
      case Analysis => this.(analysisCards := v)
      case Containment => this.(containmentCards := v)
      case Resolved => this.(resolvedCards := v)
    }
  }

  const EmptyStore: Store := Store([], [], [], [])

  /** Number of cards on the board. */
  function Total(s: Store): nat {
    |s.newCards| + |s.analysisCards| + |s.containmentCards| + |s.resolvedCards|
  }

  /** Number of cards of `cards` with id `id`. */
  function Count(cards: seq<Incident>, id: string): (n: nat)
    ensures n <= |cards|
  {
    if cards == [] then 0
    else (if cards[0].id == id then 1 else 0) + Count(cards[1..], id)
  }

  /** An id is counted zero times exactly when no card has it. */
  lemma {:induction false} CountZeroIff(cards: seq<Incident>, id: string)
    ensures Count(cards, id) == 0 <==> forall j :: 0 <= j < |cards| ==> cards[j].id != id
  {
    if cards != [] {
      CountZeroIff(cards[1..], id);
      assert forall j :: 1 <= j < |cards| ==> cards[j] == cards[1..][j - 1];
    }
  }

  /** Number of cards with id `id` on the whole board. */
  function BoardCount(s: Store, id: string): nat {
    Count(s.newCards, id) + Count(s.analysisCards, id)
      + Count(s.containmentCards, id) + Count(s.resolvedCards, id)
  }

  /** The partition invariant: no id is held twice, in one column or in two. */
  ghost predicate UniqueIds(s: Store) {
    forall id :: BoardCount(s, id) <= 1
  }

  lemma {:induction false} CountAppend(a: seq<Incident>, b: seq<Incident>, id: string)
    ensures Count(a + b, id) == Count(a, id) + Count(b, id)
  {
    if a == [] {
      assert a + b == b;
    } else {
      assert (a + b)[1..] == a[1..] + b;
      CountAppend(a[1..], b, id);
    }
  }

  /** Replacing one column changes the board's count of an id by exactly
      that column's change. */
  lemma BoardCountUpdate(s: Store, c: ColumnId, v: seq<Incident>, id: string)
    ensures BoardCount(s.With(c, v), id) + Count(s.Get(c), id) == BoardCount(s, id) + Count(v, id)
    ensures Total(s.With(c, v)) + |s.Get(c)| == Total(s) + |v|
  {
    match c
    case New =>
    case Analysis =>
    case Containment =>
    case Resolved =>
  }

  /** A column's count never exceeds the board's. */
  lemma ColumnCountBound(s: Store, c: ColumnId, id: string)
    ensures Count(s.Get(c), id) <= BoardCount(s, id)
  {
    match c
    case New =>
    case Analysis =>
    case Containment =>
    case Resolved =>
  }

  // ---------------------------------------------------------------------------
  // Normaliser
  // ---------------------------------------------------------------------------

  /** `inc.status?.toLowerCase() || 'new'` */
  function StatusText(status: Option<string>): string {
    var lowered := if status.Some? then Lower(status.value) else "";
    if lowered == "" then "new" else lowered
  }

  /** The column an incident starts in: the first keyword group found in the
      lower-cased status wins. */
  function ColumnFor(status: Option<string>): (c: ColumnId)
    ensures status.None? || status == Some("") ==> c == New
    ensures var st := StatusText(status);
      && (Contains(st, "analy") || Contains(st, "invest") <==> c == Analysis)
      && (c == Containment ==> Contains(st, "contain"))
      && (c == Resolved ==> !Contains(st, "contain") && (Contains(st, "resolv") || Contains(st, "close")))
      && (c == New ==> !Contains(st, "analy") && !Contains(st, "invest") && !Contains(st, "contain")
                       && !Contains(st, "resolv") && !Contains(st, "close"))
  {
    var st := StatusText(status);
    if Contains(st, "analy") || Contains(st, "invest") then Analysis
    else if Contains(st, "contain") then Containment
    else if Contains(st, "resolv") || Contains(st, "close") then Resolved
    else New
  }

  /** The column choice does not depend on the case of the status. */
  lemma ColumnForIgnoresCase(status: string)
    ensures ColumnFor(Some(status)) == ColumnFor(Some(Lower(status)))
  {
    LowerIdempotent(status);
  }

  /** A status spelled like a column key, in any case, starts the incident
      in that column. */
  lemma ColumnForKey(c: ColumnId, status: string)
    requires Lower(status) == Key(c)
    ensures ColumnFor(Some(status)) == c
  {
    match c
    case New => NewKeyColumn(status);
    case Analysis => AnalysisKeyColumn(status);
    case Containment => ContainmentKeyColumn(status);
    case Resolved => ResolvedKeyColumn(status);
  }

  lemma NewKeyColumn(status: string)
    requires Lower(status) == "new"
    ensures ColumnFor(Some(status)) == New
  {
    assert StatusText(Some(status)) == "new";
  }

  lemma AnalysisKeyColumn(status: string)
    requires Lower(status) == "analysis"
    ensures ColumnFor(Some(status)) == Analysis
  {
    assert StatusText(Some(status)) == "analysis";
    assert "analy" <= "analysis";
  }

  lemma ContainmentKeyColumn(status: string)
    requires Lower(status) == "containment"
    ensures ColumnFor(Some(status)) == Containment
  {
    var st := StatusText(Some(status));
    assert st == "containment";
    MissingCharNotContained(st, "analy", 3);
    MissingCharNotContained(st, "invest", 2);
    assert "contain" <= st;
  }

  lemma ResolvedKeyColumn(status: string)
    requires Lower(status) == "resolved"
    ensures ColumnFor(Some(status)) == Resolved
  {
    var st := StatusText(Some(status));
    assert st == "resolved";
    MissingCharNotContained(st, "analy", 4);
    MissingCharNotContained(st, "invest", 0);
    MissingCharNotContained(st, "contain", 0);
    assert "resolv" <= st;
  }

  /** The first keyword group found wins: a status that mentions both an
      investigation and containment starts in the analysis column. */
  lemma ColumnForFirstMatchWins()
    ensures ColumnFor(Some("invest/contain")) == Analysis
  {
    var st := StatusText(Some("invest/contain"));
    LowerOfLowered("invest/contain");
    assert "invest" <= st;
  }

  /** The card made from one raw incident. */
  function Normalize(raw: RawIncident): (card: Incident)
    ensures card.id == raw.id
  {
    var level := if raw.impactLevel.Some? then Lower(raw.impactLevel.value) else "";
    Incident(
      raw.id,
      raw.title,
      if level == "" then "medium" else level,
      "Unassigned",
      "Services: " + (if raw.affectedServices.Some? then Join(raw.affectedServices.value, ", ") else "undefined"),
      "Just now")
  }

  /** A card keeps the incident's id and title, is unassigned and fresh, and
      carries a non-empty lower-case severity: the incident's impact level, or
      "medium" when that is missing or empty. */
  lemma NormalizeCard(raw: RawIncident)
    ensures var card := Normalize(raw);
      && card.id == raw.id && card.title == raw.title
      && card.assignedTo == "Unassigned" && card.timestamp == "Just now"
      && card.severity != ""
      && (forall i :: 0 <= i < |card.severity| ==> !IsUpper(card.severity[i]))
      && (raw.impactLevel.None? || raw.impactLevel == Some("") ==> card.severity == "medium")
      && (raw.impactLevel.Some? && raw.impactLevel.value != "" ==>
            Lower(card.severity) == Lower(raw.impactLevel.value))
  {
    LowerIdempotent(if raw.impactLevel.Some? then raw.impactLevel.value else "");
  }


  // ---------------------------------------------------------------------------
  // Grouping: the body of fetchIncidents
  // ---------------------------------------------------------------------------

  /** The incident's status maps to column `c`. */
  function InColumn(c: ColumnId): RawIncident -> bool {
    (r: RawIncident) => ColumnFor(r.status) == c
  }

  /** The cards of one column after a rebuild: the incidents whose status
      maps to it, normalised, in input order. */
  function Bucket(raws: seq<RawIncident>, c: ColumnId): seq<Incident> {
    Map(Normalize, Filter(raws, InColumn(c)))
  }

  /** The store a rebuild produces. */
  function Group(raws: seq<RawIncident>): Store {
    Store(Bucket(raws, New), Bucket(raws, Analysis), Bucket(raws, Containment), Bucket(raws, Resolved))
  }

  lemma BucketSnoc(raws: seq<RawIncident>, x: RawIncident, c: ColumnId)
    ensures Bucket(raws + [x], c)
         == if ColumnFor(x.status) == c then Bucket(raws, c) + [Normalize(x)] else Bucket(raws, c)
  {
    var keep := InColumn(c);
    var f, t := Filter(raws, keep), Filter([x], keep);
    FilterAppend(raws, [x], keep);
    FilterSingle(x, keep);
    MapAppend(Normalize, f, t);
    if keep(x) {
      assert Map(Normalize, t) == [Normalize(x)];
    } else {
      assert Map(Normalize, f) + Map(Normalize, t) == Map(Normalize, f);
    }
  }

  /** Adding one incident to the input pushes its card onto the end of its
      column and changes nothing else: one step of the `forEach`. */
  lemma GroupSnoc(raws: seq<RawIncident>, x: RawIncident)
    ensures var c := ColumnFor(x.status);
            Group(raws + [x]) == Group(raws).With(c, Group(raws).Get(c) + [Normalize(x)])
  {
    BucketSnoc(raws, x, New);
    BucketSnoc(raws, x, Analysis);
    BucketSnoc(raws, x, Containment);
    BucketSnoc(raws, x, Resolved);
  }

  /** The grouping loop of `fetchIncidents`: each incident is normalised and
      pushed onto the column its status maps to. */
  method Rebuild(raws: seq<RawIncident>) returns (store: Store)
    ensures store == Group(raws)
  {
    store := EmptyStore;
    var i := 0;
    assert raws[..0] == [];
    while i < |raws|
      invariant 0 <= i <= |raws|
      invariant store == Group(raws[..i])
    {
      TakeSnoc(raws, i);
      GroupSnoc(raws[..i], raws[i]);
      var colId := ColumnFor(raws[i].status);
      store := store.With(colId, store.Get(colId) + [Normalize(raws[i])]);
      i := i + 1;
    }
    assert raws[..|raws|] == raws;
  }

  /** Number of incidents with id `id`. */
  function RawCount(raws: seq<RawIncident>, id: string): (n: nat)
    ensures n <= |raws|
  {
    if raws == [] then 0
    else RawCount(raws[..|raws| - 1], id) + (if raws[|raws| - 1].id == id then 1 else 0)
  }

  /** A rebuild puts every incident on the board exactly once: each id is on
      the board as many times as it is in the input, and the board holds as
      many cards as there were incidents. */
  lemma GroupCounts(raws: seq<RawIncident>)
    ensures forall id :: BoardCount(Group(raws), id) == RawCount(raws, id)
    ensures Total(Group(raws)) == |raws|
  {
    forall id ensures BoardCount(Group(raws), id) == RawCount(raws, id) {
      GroupCountOf(raws, id);
    }
    GroupCountOf(raws, "");
  }

  /** One id's count, and the total, after a rebuild. */
  lemma {:induction false} GroupCountOf(raws: seq<RawIncident>, id: string)
    ensures BoardCount(Group(raws), id) == RawCount(raws, id)
    ensures Total(Group(raws)) == |raws|
    decreases |raws|
  {
    if raws == [] {
      assert Group(raws) == EmptyStore;
      assert BoardCount(EmptyStore, id) == 0;
    } else {
      var a, x := raws[..|raws| - 1], raws[|raws| - 1];
      assert raws == a + [x];
      GroupCountOf(a, id);
      GroupCountStep(a, x, id);
      assert BoardCount(Group(raws), id) == BoardCount(Group(a), id) + if x.id == id then 1 else 0;
      assert RawCount(raws, id) == RawCount(a, id) + if x.id == id then 1 else 0;
    }
  }

  /** One more incident adds one card, counted under its id. */
  lemma GroupCountStep(a: seq<RawIncident>, x: RawIncident, id: string)
    ensures BoardCount(Group(a + [x]), id) == BoardCount(Group(a), id) + if x.id == id then 1 else 0
    ensures Total(Group(a + [x])) == Total(Group(a)) + 1
  {
    GroupSnoc(a, x);
    var g, c, card := Group(a), ColumnFor(x.status), Normalize(x);
    BoardCountUpdate(g, c, g.Get(c) + [card], id);
    CountAppend(g.Get(c), [card], id);
    assert Count([card], id) == if x.id == id then 1 else 0;
  }

  /** The rebuilt board satisfies the partition invariant exactly when the
      incident ids are distinct. */
  lemma GroupUniqueIds(raws: seq<RawIncident>)
    ensures UniqueIds(Group(raws)) <==> forall id :: RawCount(raws, id) <= 1
  {
    GroupCounts(raws);
    SameCountsSameUniqueness(Group(raws), raws);
  }

  lemma SameCountsSameUniqueness(s: Store, raws: seq<RawIncident>)
    requires forall id :: BoardCount(s, id) == RawCount(raws, id)
    ensures UniqueIds(s) <==> forall id :: RawCount(raws, id) <= 1
  {
    if UniqueIds(s) {
      forall id ensures RawCount(raws, id) <= 1 {
        assert BoardCount(s, id) <= 1;
      }
    } else {
      var id :| BoardCount(s, id) > 1;
      assert RawCount(raws, id) > 1;
    }
  }

  /** Each incident's card is in the column its status maps to, and a column
      holds only cards of incidents whose status maps to it. */
  lemma GroupPlacement(raws: seq<RawIncident>)
    ensures forall k :: 0 <= k < |raws| ==> Normalize(raws[k]) in Group(raws).Get(ColumnFor(raws[k].status))
    ensures forall c: ColumnId, card :: card in Group(raws).Get(c) ==>
              exists r :: r in raws && ColumnFor(r.status) == c && card == Normalize(r)
  {
    forall k | 0 <= k < |raws|
      ensures Normalize(raws[k]) in Group(raws).Get(ColumnFor(raws[k].status))
    {
      GroupPlacesOne(raws, k);
    }
    forall c: ColumnId, card | card in Group(raws).Get(c)
      ensures exists r :: r in raws && ColumnFor(r.status) == c && card == Normalize(r)
    {
      GroupHoldsOnly(raws, c, card);
    }
  }

  /** A rebuilt column is the bucket of its incidents. */
  lemma GroupGet(raws: seq<RawIncident>, c: ColumnId)
    ensures Group(raws).Get(c) == Bucket(raws, c)
  {
    match c
    case New =>
    case Analysis =>
    case Containment =>
    case Resolved =>
  }

  lemma GroupPlacesOne(raws: seq<RawIncident>, k: nat)
    requires k < |raws|
    ensures Normalize(raws[k]) in Group(raws).Get(ColumnFor(raws[k].status))
  {
    var c := ColumnFor(raws[k].status);
    var f := Filter(raws, InColumn(c));
    assert raws[k] in f;
    var j :| 0 <= j < |f| && f[j] == raws[k];
    GroupGet(raws, c);
    assert Bucket(raws, c)[j] == Normalize(raws[k]);
  }

  lemma GroupHoldsOnly(raws: seq<RawIncident>, c: ColumnId, card: Incident)
    requires card in Group(raws).Get(c)
    ensures exists r :: r in raws && ColumnFor(r.status) == c && card == Normalize(r)
  {
    GroupGet(raws, c);
    var f := Filter(raws, InColumn(c));
    var j :| 0 <= j < |Bucket(raws, c)| && Bucket(raws, c)[j] == card;
    assert f[j] in f;
  }

  /** Within a column, cards keep the order of the incidents they came from. */
  lemma GroupKeepsOrder(raws: seq<RawIncident>, c: ColumnId)
    ensures IsSubseq(Group(raws).Get(c), Map(Normalize, raws))
  {
    GroupGet(raws, c);
    MapSubseq(Normalize, Filter(raws, InColumn(c)), raws);
  }

  // ---------------------------------------------------------------------------
  // Lookups: findIndex and findContainer
  // ---------------------------------------------------------------------------

  /** `cards.findIndex((i) => i.id === id)`: the first position holding `id`,
      or -1. */
  function FindIndex(cards: seq<Incident>, id: string): (k: int)
    ensures -1 <= k < |cards|
    ensures 0 <= k ==> cards[k].id == id && forall j :: 0 <= j < k ==> cards[j].id != id
    ensures k == -1 <==> forall j :: 0 <= j < |cards| ==> cards[j].id != id
  {
    if cards == [] then -1
    else if cards[0].id == id then 0
    else
      var k := FindIndex(cards[1..], id);
      if k == -1 then -1 else k + 1
  }

  /** Some card of `cards` has id `id`. */
  predicate Holds(cards: seq<Incident>, id: string) {
    FindIndex(cards, id) >= 0
  }

  /** The first column, in key order, holding a card with id `id`. */
  function FindCardColumn(s: Store, id: string): (r: Option<ColumnId>)
    ensures r.Some? ==> Holds(s.Get(r.value), id) && forall c :: Rank(c) < Rank(r.value) ==> !Holds(s.Get(c), id)
    ensures r.None? <==> forall c :: !Holds(s.Get(c), id)
  {
    if Holds(s.newCards, id) then Some(New)
    else if Holds(s.analysisCards, id) then Some(Analysis)
    else if Holds(s.containmentCards, id) then Some(Containment)
    else if Holds(s.resolvedCards, id) then Some(Resolved)
    else None
  }

  /** `findContainer(id)`: the column named `id` if `id` is a column key,
      otherwise the first column holding a card with that id. */
  function FindContainer(s: Store, id: string): (r: Option<ColumnId>)
    ensures ColumnOfKey(id).Some? ==> r == ColumnOfKey(id)
    ensures ColumnOfKey(id).None? ==> r == FindCardColumn(s, id)
  {
    if ColumnOfKey(id).Some? then ColumnOfKey(id) else FindCardColumn(s, id)
  }

  // ---------------------------------------------------------------------------
  // Drag-over relocation
  // ---------------------------------------------------------------------------

  /** What the pointer is over: an id (a card's or a column's), and whether the
      dragged card's translated top is below the hovered card's bottom edge. */
  datatype Over = Over(id: string, isBelow: bool)

  /** `newIndex` of handleDragOver: past the end for a column id, else the
      hovered card's index, plus one when the dragged card is below it. */
  function InsertIndex(target: seq<Incident>, over: Over): (k: nat)
    ensures ColumnOfKey(over.id).Some? || !Holds(target, over.id) ==> k == |target| + 1
    ensures ColumnOfKey(over.id).None? && Holds(target, over.id) ==> k <= |target|
    ensures ColumnOfKey(over.id).None? && Holds(target, over.id) && !over.isBelow ==>
              k < |target| && target[k].id == over.id
    ensures ColumnOfKey(over.id).None? && Holds(target, over.id) && over.isBelow ==>
              1 <= k && target[k - 1].id == over.id
  {
    if ColumnOfKey(over.id).Some? then |target| + 1
    else
      var k := FindIndex(target, over.id);
      if k >= 0 then k + (if over.isBelow then 1 else 0) else |target| + 1
  }

  /** `[...t.slice(0, k), card, ...t.slice(k, t.length)]`: `slice` clamps, so a
      position past the end appends. */
  function Insert(t: seq<Incident>, k: nat, card: Incident): (r: seq<Incident>)
    ensures |r| == |t| + 1
    ensures r[Min(k, |t|)] == card
    ensures r[..Min(k, |t|)] == t[..Min(k, |t|)] && r[Min(k, |t|) + 1..] == t[Min(k, |t|)..]
  {
    var at := Min(k, |t|);
    t[..at] + [card] + t[at..]
  }

  /** `cards.filter((item) => item.id !== id)` */
  function WithoutId(cards: seq<Incident>, id: string): (r: seq<Incident>)
    ensures !Holds(r, id)
    ensures forall card :: card in r <==> card in cards && card.id != id
    ensures IsSubseq(r, cards)
  {
    var r := Filter(cards, (card: Incident) => card.id != id);
    assert forall j :: 0 <= j < |r| ==> r[j] in r;
    r
  }

  /** The guards of handleDragOver all pass: there is a hover target, it is
      not the dragged card, both containers are found, and they differ. */
  predicate CrossColumn(s: Store, activeId: string, over: Option<Over>) {
    && over.Some? && over.value.id != "" && over.value.id != activeId
    && FindCardColumn(s, activeId).Some?
    && FindContainer(s, over.value.id).Some?
    && FindCardColumn(s, activeId) != FindContainer(s, over.value.id)
  }

  /** Removes the dragged card (every card with its id) from the source column
      and inserts the first of them into the target column at `newIndex`. */
  function Move(s: Store, activeId: string, from: ColumnId, to: ColumnId, newIndex: nat): Store
    requires from != to && Holds(s.Get(from), activeId)
  {
    var card := s.Get(from)[FindIndex(s.Get(from), activeId)];
    s.With(from, WithoutId(s.Get(from), activeId)).With(to, Insert(s.Get(to), newIndex, card))
  }

  /** The store after one drag-over event, with the dragged card's column
      found by looking for the card. */
  function NextOnDragOver(s: Store, activeId: string, over: Option<Over>): (r: Store)
    ensures r == s <==> !CrossColumn(s, activeId, over)
  {
    if CrossColumn(s, activeId, over) then
      var from, to := FindCardColumn(s, activeId).value, FindContainer(s, over.value.id).value;
      var r := Move(s, activeId, from, to, InsertIndex(s.Get(to), over.value));
      assert !Holds(r.Get(from), activeId);
      r
    else s
  }

  /** A cross-column move takes the dragged card, the first with its id,
      out of its column together with every other card carrying that id,
      and leaves the two columns not involved untouched. */
  lemma DragOverLeaves(s: Store, activeId: string, over: Option<Over>)
    requires CrossColumn(s, activeId, over)
    ensures
      var from, to := FindCardColumn(s, activeId).value, FindContainer(s, over.value.id).value;
      var r := NextOnDragOver(s, activeId, over);
      && r.Get(from) == WithoutId(s.Get(from), activeId)
      && !Holds(r.Get(from), activeId)
      && forall c :: c != from && c != to ==> r.Get(c) == s.Get(c)
  {
    var from, to := FindCardColumn(s, activeId).value, FindContainer(s, over.value.id).value;
    MoveFacts(s, activeId, from, to, InsertIndex(s.Get(to), over.value));
  }

  /** The card being dragged: the first card with the dragged id in the
      first column holding one. */
  function Dragged(s: Store, activeId: string): (card: Incident)
    requires FindCardColumn(s, activeId).Some?
    ensures card.id == activeId && card in s.Get(FindCardColumn(s, activeId).value)
  {
    var from := FindCardColumn(s, activeId).value;
    s.Get(from)[FindIndex(s.Get(from), activeId)]
  }

  /** The position the dragged card takes in the target column `t`: the end
      when a column is hovered, else the hovered card's position, one further
      when the dragged card is below it. */
  function Landing(t: seq<Incident>, over: Over): (at: nat)
    requires ColumnOfKey(over.id).Some? || Holds(t, over.id)
    ensures at <= |t|
  {
    if ColumnOfKey(over.id).Some? then |t|
    else FindIndex(t, over.id) + (if over.isBelow then 1 else 0)
  }

  /** A cross-column move puts the dragged card, the same record, into the
      target column at its landing position; the cards before and after that
      position keep their order. */
  lemma DragOverLands(s: Store, activeId: string, over: Option<Over>)
    requires CrossColumn(s, activeId, over)
    ensures ColumnOfKey(over.value.id).Some? || Holds(s.Get(FindContainer(s, over.value.id).value), over.value.id)
    ensures
      var t := s.Get(FindContainer(s, over.value.id).value);
      var u := NextOnDragOver(s, activeId, over).Get(FindContainer(s, over.value.id).value);
      var at := Landing(t, over.value);
      && |u| == |t| + 1
      && u[at] == Dragged(s, activeId) && u[..at] == t[..at] && u[at + 1..] == t[at..]
  {
    var from, to := FindCardColumn(s, activeId).value, FindContainer(s, over.value.id).value;
    if ColumnOfKey(over.value.id).None? {
      assert FindCardColumn(s, over.value.id) == Some(to);
    }
    MoveFacts(s, activeId, from, to, InsertIndex(s.Get(to), over.value));
    LandsAt(s.Get(to), over.value, Dragged(s, activeId));
  }

  /** Where the hover target puts a card inserted into the target column. */
  lemma LandsAt(t: seq<Incident>, over: Over, card: Incident)
    requires ColumnOfKey(over.id).Some? || Holds(t, over.id)
    ensures
      var u := Insert(t, InsertIndex(t, over), card);
      var at := Landing(t, over);
      && |u| == |t| + 1
      && u[at] == card && u[..at] == t[..at] && u[at + 1..] == t[at..]
  {
    InsertAt(t, over);
  }

  /** Where `Insert` puts the card for a hover target in the target column:
      at the end for a column id, else at or just after the hovered card. */
  lemma InsertAt(target: seq<Incident>, over: Over)
    requires ColumnOfKey(over.id).Some? || Holds(target, over.id)
    ensures Min(InsertIndex(target, over), |target|)
         == if ColumnOfKey(over.id).Some? then |target|
            else FindIndex(target, over.id) + (if over.isBelow then 1 else 0)
  {
  }

  /** What `Move` does to each column. */
  lemma MoveFacts(s: Store, activeId: string, from: ColumnId, to: ColumnId, newIndex: nat)
    requires from != to && Holds(s.Get(from), activeId)
    ensures var r := Move(s, activeId, from, to, newIndex);
      && r.Get(from) == WithoutId(s.Get(from), activeId)
      && r.Get(to) == Insert(s.Get(to), newIndex, s.Get(from)[FindIndex(s.Get(from), activeId)])
      && forall c :: c != from && c != to ==> r.Get(c) == s.Get(c)
  {
  }

  /** The filter removes every card with the dragged id and keeps every
      other card. */
  lemma {:induction false} WithoutIdCount(cards: seq<Incident>, id: string, x: string)
    ensures Count(WithoutId(cards, id), x) == if x == id then 0 else Count(cards, x)
    ensures |WithoutId(cards, id)| == |cards| - Count(cards, id)
  {
    if cards != [] {
      WithoutIdCount(cards[1..], id, x);
      if cards[0].id != id {
        assert WithoutId(cards, id) == [cards[0]] + WithoutId(cards[1..], id);
        assert ([cards[0]] + WithoutId(cards[1..], id))[1..] == WithoutId(cards[1..], id);
      } else {
        assert WithoutId(cards, id) == WithoutId(cards[1..], id);
      }
    }
  }

  /** Inserting a card adds exactly one occurrence of its id. */
  lemma InsertCount(t: seq<Incident>, k: nat, card: Incident, x: string)
    ensures Count(Insert(t, k, card), x) == Count(t, x) + if card.id == x then 1 else 0
  {
    var at := Min(k, |t|);
    assert t == t[..at] + t[at..];
    CountAppend(t[..at], t[at..], x);
    CountAppend(t[..at], [card], x);
    CountAppend(t[..at] + [card], t[at..], x);
    assert Insert(t, k, card) == t[..at] + [card] + t[at..];
  }

  /** Under the partition invariant a drag-over keeps every id's count, so
      the card count is unchanged and the invariant still holds. */
  lemma DragOverKeepsIds(s: Store, activeId: string, over: Option<Over>)
    requires UniqueIds(s)
    ensures forall x :: BoardCount(NextOnDragOver(s, activeId, over), x) == BoardCount(s, x)
    ensures Total(NextOnDragOver(s, activeId, over)) == Total(s)
    ensures UniqueIds(NextOnDragOver(s, activeId, over))
  {
    if CrossColumn(s, activeId, over) {
      var from, to := FindCardColumn(s, activeId).value, FindContainer(s, over.value.id).value;
      // the dragged id occurs exactly once, in the source column
      ColumnCountBound(s, from, activeId);
      CountZeroIff(s.Get(from), activeId);
      assert Count(s.Get(from), activeId) == 1;
      MoveKeepsCounts(s, activeId, from, to, InsertIndex(s.Get(to), over.value));
    }
  }

  /** Moving a card whose id occurs once in its column keeps every id's
      count and the total. */
  lemma MoveKeepsCounts(s: Store, activeId: string, from: ColumnId, to: ColumnId, newIndex: nat)
    requires from != to && Holds(s.Get(from), activeId)
    requires Count(s.Get(from), activeId) == 1
    ensures forall x :: BoardCount(Move(s, activeId, from, to, newIndex), x) == BoardCount(s, x)
    ensures Total(Move(s, activeId, from, to, newIndex)) == Total(s)
  {
    forall x ensures BoardCount(Move(s, activeId, from, to, newIndex), x) == BoardCount(s, x) {
      MoveKeepsCount(s, activeId, from, to, newIndex, x);
    }
    MoveKeepsTotal(s, activeId, from, to, newIndex);
  }

  /** The two columns a move rewrites, one after the other. */
  lemma MoveSteps(s: Store, activeId: string, from: ColumnId, to: ColumnId, newIndex: nat)
    requires from != to && Holds(s.Get(from), activeId)
    ensures var card := s.Get(from)[FindIndex(s.Get(from), activeId)];
      var s1 := s.With(from, WithoutId(s.Get(from), activeId));
      && s1.Get(to) == s.Get(to)
      && Move(s, activeId, from, to, newIndex) == s1.With(to, Insert(s.Get(to), newIndex, card))
  {
  }

  /** One id's count across a move. */
  lemma MoveKeepsCount(s: Store, activeId: string, from: ColumnId, to: ColumnId, newIndex: nat, x: string)
    requires from != to && Holds(s.Get(from), activeId)
    requires Count(s.Get(from), activeId) == 1
    ensures BoardCount(Move(s, activeId, from, to, newIndex), x) == BoardCount(s, x)
  {
    var card := s.Get(from)[FindIndex(s.Get(from), activeId)];
    var removed := WithoutId(s.Get(from), activeId);
    var s1 := s.With(from, removed);
    MoveSteps(s, activeId, from, to, newIndex);
    WithoutIdCount(s.Get(from), activeId, x);
    BoardCountUpdate(s, from, removed, x);
    InsertCount(s.Get(to), newIndex, card, x);
    BoardCountUpdate(s1, to, Insert(s.Get(to), newIndex, card), x);
  }

  /** The card count across a move. */
  lemma MoveKeepsTotal(s: Store, activeId: string, from: ColumnId, to: ColumnId, newIndex: nat)
    requires from != to && Holds(s.Get(from), activeId)
    requires Count(s.Get(from), activeId) == 1
    ensures Total(Move(s, activeId, from, to, newIndex)) == Total(s)
  {
    var card := s.Get(from)[FindIndex(s.Get(from), activeId)];
    var removed := WithoutId(s.Get(from), activeId);
    var s1 := s.With(from, removed);
    MoveSteps(s, activeId, from, to, newIndex);
    WithoutIdCount(s.Get(from), activeId, activeId);
    BoardCountUpdate(s, from, removed, activeId);
    BoardCountUpdate(s1, to, Insert(s.Get(to), newIndex, card), activeId);
  }

  // ---------------------------------------------------------------------------
  // The code as written: the source column is found with findContainer
  // ---------------------------------------------------------------------------

  /** handleDragOver exactly as written: the dragged card's column comes from
      `findContainer(active.id)`, which answers with a column key before it
      looks at cards. `None` stands for the result the code cannot avoid when
      that column does not hold the card: `activeItems[-1]`, i.e. `undefined`,
      is inserted into the target column. */
  function NextOnDragOverAsWritten(s: Store, activeId: string, over: Option<Over>): (r: Option<Store>)
    ensures ColumnOfKey(activeId).None? ==> r == Some(NextOnDragOver(s, activeId, over))
  {
    if over.None? || over.value.id == "" || over.value.id == activeId then Some(s)
    else
      var from, to := FindContainer(s, activeId), FindContainer(s, over.value.id);
      if from.None? || to.None? || from == to then Some(s)
      else if !Holds(s.Get(from.value), activeId) then None
      else Some(Move(s, activeId, from.value, to.value, InsertIndex(s.Get(to.value), over.value)))
  }

  /** A card whose id is a column key ("new") sitting in another column: the
      code as written finds the "new" column for it and inserts `undefined`
      into the target, leaving the card where it was. */
  lemma AsWrittenInsertsUndefined(named: Incident, other: Incident)
    requires named.id == "new" && other.id == "x"
    ensures NextOnDragOverAsWritten(Store([], [named], [other], []), "new", Some(Over("x", false))).None?
  {
    var s := Store([], [named], [other], []);
    assert FindContainer(s, "new") == Some(New);
    assert FindContainer(s, "x") == Some(Containment) by {
      assert FindIndex([other], "x") == 0;
    }
    assert !Holds([], "new");
  }

  /** The column key of a column names that column. */
  lemma ColumnOfOwnKey(c: ColumnId)
    ensures ColumnOfKey(Key(c)) == Some(c)
  {
    match c
    case New =>
    case Analysis =>
    case Containment =>
    case Resolved =>
  }

  /** In general: whenever the card named after column `c` sits outside `c`
      and is dragged over another column, the code as written has no card
      to move. */
  lemma AsWrittenLosesKeyNamedCard(s: Store, c: ColumnId, over: Option<Over>)
    requires over.Some? && over.value.id != "" && over.value.id != Key(c)
    requires FindContainer(s, over.value.id).Some? && FindContainer(s, over.value.id) != Some(c)
    requires !Holds(s.Get(c), Key(c))
    ensures NextOnDragOverAsWritten(s, Key(c), over).None?
  {
    ColumnOfOwnKey(c);
  }

  /** The corrected lookup moves such a card: after the drag it has left
      the column it was in and is in the hovered column. */
  lemma CorrectedMovesKeyNamedCard(s: Store, c: ColumnId, over: Option<Over>)
    requires over.Some? && over.value.id != "" && over.value.id != Key(c)
    requires FindCardColumn(s, Key(c)).Some? && FindContainer(s, over.value.id).Some?
    requires FindCardColumn(s, Key(c)) != FindContainer(s, over.value.id)
    ensures var r := NextOnDragOver(s, Key(c), over);
      && !Holds(r.Get(FindCardColumn(s, Key(c)).value), Key(c))
      && Holds(r.Get(FindContainer(s, over.value.id).value), Key(c))
  {
    DragOverLeaves(s, Key(c), over);
    DragOverLands(s, Key(c), over);
  }

  /** Hovering a column itself, rather than a card in it, appends the
      dragged card at the end of that column. */
  lemma DropOnColumnAppends(s: Store, activeId: string, c: ColumnId, isBelow: bool)
    requires activeId != Key(c)
    requires FindCardColumn(s, activeId).Some? && FindCardColumn(s, activeId) != Some(c)
    ensures NextOnDragOver(s, activeId, Some(Over(Key(c), isBelow))).Get(c) == s.Get(c) + [Dragged(s, activeId)]
  {
    var over := Some(Over(Key(c), isBelow));
    ColumnOfOwnKey(c);
    assert FindContainer(s, Key(c)) == Some(c);
    DragOverLands(s, activeId, over);
    SnocParts(s.Get(c), NextOnDragOver(s, activeId, over).Get(c), Dragged(s, activeId));
  }

  /** A sequence one longer than `t`, starting with `t` and ending in `card`. */
  lemma SnocParts(t: seq<Incident>, u: seq<Incident>, card: Incident)
    requires |u| == |t| + 1 && u[|t|] == card && u[..|t|] == t
    ensures u == t + [card]
  {
    assert u == u[..|t|] + [u[|t|]];
  }

  /** Without the partition invariant a move can lose cards: two cards share
      the dragged id, the filter removes both and only one is inserted. */
  lemma DuplicateIdsLoseCards(a: Incident, b: Incident)
    requires a.id == "a" && b.id == "a"
    ensures
      var s := Store([a, b], [], [], []);
      Total(NextOnDragOver(s, "a", Some(Over("analysis", false)))) == Total(s) - 1
  {
    var s := Store([a, b], [], [], []);
    var over := Over("analysis", false);
    assert FindIndex(s.newCards, "a") == 0;
    assert FindCardColumn(s, "a") == Some(New);
    assert FindContainer(s, "analysis") == Some(Analysis);
    assert InsertIndex([], over) == 1;
    assert WithoutId([b], "a") == [];
    assert WithoutId([a, b], "a") == [];
    MoveFacts(s, "a", New, Analysis, 1);
  }

  // ---------------------------------------------------------------------------
  // The board component's state
  // ---------------------------------------------------------------------------

  class Board {
    /** The `items` state cell. */
    var items: Store
    /** The `activeId` state cell: the card being dragged, if any. */
    var activeId: Option<string>

    constructor ()
      ensures items == EmptyStore && activeId == None
    {
      items := EmptyStore;
      activeId := None;
    }

    /** One completed `fetchIncidents`: a response replaces the whole store
        (a drag in progress is not cancelled); a failed request is only
        logged. */
    method Refresh(response: Option<seq<RawIncident>>)
      modifies this
      ensures response.Some? ==> items == Group(response.value)
      ensures response.None? ==> items == old(items)
      ensures activeId == old(activeId)
    {
      if response.Some? {
        items := Rebuild(response.value);
      }
    }

    method HandleDragStart(id: string)
      modifies this
      ensures activeId == Some(id) && items == old(items)
    {
      activeId := Some(id);
    }

    /** `active.id` comes with the event, not from the `activeId` cell. */
    method HandleDragOver(active: string, over: Option<Over>)
      modifies this
      ensures items == NextOnDragOver(old(items), active, over)
      ensures activeId == old(activeId)
      ensures UniqueIds(old(items)) ==>
              UniqueIds(items) && Total(items) == Total(old(items))
              && forall x :: BoardCount(items, x) == BoardCount(old(items), x)
    {
      if UniqueIds(items) {
        DragOverKeepsIds(items, active, over);
      }
      items := NextOnDragOver(items, active, over);
    }

    /** A drop never changes the columns: a same-column drop with different
        indices reaches `setItems((prev) => prev)`. The drag ends either way. */
    method HandleDragEnd(active: string, over: Option<string>)
      modifies this
      ensures items == old(items)
      ensures activeId == None
    {
      activeId := None;
    }
  }
}
