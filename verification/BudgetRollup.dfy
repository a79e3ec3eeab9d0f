/** The budget page: archive sections, cost-centre groups and their totals. */
module BudgetRollup {
  import opened Grouping

  const UNBOUND := "未綁定成本中心"

  /** A budget as the page receives it. A missing or empty field is the empty string; `centerId` is the printed id of
      its cost centre, empty if it has none. */
  datatype Budget = Budget(
    status: string, aiStatus: string, kind: string,
    centerId: string, centerName: string, centerCode: string, currency: string,
    accountName: string, budgetNo: string,
    amount: real, reserved: real, spent: real, available: real)

  datatype Section = Review | Active | Archived

  /** A group while the budgets are being read. */
  datatype Draft = Draft(first: Budget, firstIndex: nat, accounts: seq<string>, children: seq<Budget>)

  /** A finished group. */
  datatype Group = Group(
    id: string, centerId: string, centerName: string, centerCode: string, currency: string, firstIndex: nat,
    accounts: seq<string>, amount: real, reserved: real, spent: real, available: real,
    pending: nat, exceptions: nat, children: seq<Budget>)

  function Or(s: string, fallback: string): string {
    if s == "" then fallback else s
  }

  function ArchiveState(b: Budget): Section {
    if b.status == "closed" || b.aiStatus == "auto_closed" || b.aiStatus == "closed" then Archived
    else if b.aiStatus == "pending_closure" || b.aiStatus == "exception" then Review
    else Active
  }

  function KeyOf(b: Budget): string {
    if b.centerId != "" then "cc:" + b.centerId else "name:" + Or(b.centerName, UNBOUND)
  }

  function AmountOf(b: Budget): real { b.amount }
  function ReservedOf(b: Budget): real { b.reserved }
  function SpentOf(b: Budget): real { b.spent }
  function AvailableOf(b: Budget): real { b.available }

  predicate IsCenter(b: Budget) { Or(b.kind, "rolling") == "center" }
  function Account(b: Budget): string { Or(b.accountName, Or(b.budgetNo, "預算")) }
  function AiStatus(b: Budget): string { b.aiStatus }

  /** Only a budget of that kind is a centre: one without a kind is not. */
  lemma CenterIff(b: Budget)
    ensures IsCenter(b) <==> b.kind == "center"
  {
  }

  /** A closed budget is archived; of the others those wait for review that are to be closed or are exceptions. */
  lemma SectionIff(b: Budget)
    ensures ArchiveState(b) == Archived <==> b.status == "closed" || b.aiStatus in {"auto_closed", "closed"}
    ensures ArchiveState(b) == Review <==> b.status != "closed" && b.aiStatus in {"pending_closure", "exception"}
  {
  }

  /** The account under which a budget is listed: its name, else its number, else the word for a budget. */
  predicate ListedAs(b: Budget, name: string) {
    if b.accountName != "" then name == b.accountName
    else if b.budgetNo != "" then name == b.budgetNo
    else name == "預算"
  }

  lemma AccountIff(b: Budget, name: string)
    ensures Account(b) == name <==> ListedAs(b, name)
  {
  }

  /** Two budgets share a group exactly if they name the same cost centre, or neither names one and both show the same
      centre name. */
  lemma SameGroupIff(a: Budget, b: Budget)
    ensures KeyOf(a) == KeyOf(b)
            <==> a.centerId == b.centerId
                 && (a.centerId == "" ==> Or(a.centerName, UNBOUND) == Or(b.centerName, UNBOUND))
  {
    var x, y := KeyOf(a), KeyOf(b);
    assert x[0] == (if a.centerId != "" then 'c' else 'n') && y[0] == (if b.centerId != "" then 'c' else 'n');
    assert x[if a.centerId != "" then 3 else 5..] == if a.centerId != "" then a.centerId else Or(a.centerName, UNBOUND);
    assert y[if b.centerId != "" then 3 else 5..] == if b.centerId != "" then b.centerId else Or(b.centerName, UNBOUND);
  }

  // ---------------------------------------------------------------------------------------
  // The stable sort
  // ---------------------------------------------------------------------------------------

  /** `Array.prototype.sort` with a numeric rank: stable. */
  function InsertBy<T>(rank: T -> int, s: seq<T>, x: T): seq<T> {
    if s == [] || rank(s[|s| - 1]) <= rank(x) then s + [x]
    else InsertBy(rank, s[..|s| - 1], x) + [s[|s| - 1]]
  }

  function SortBy<T>(rank: T -> int, s: seq<T>): seq<T> {
    if s == [] then [] else InsertBy(rank, SortBy(rank, s[..|s| - 1]), s[|s| - 1])
  }

  function CenterRank(b: Budget): int { if IsCenter(b) then 0 else 1 }
  function IndexOfGroup(g: Group): int { g.firstIndex }

  /** An item goes behind the items of its rank or less, before those of a higher rank. */
  lemma {:induction false} InsertSmall<T>(rank: T -> int, low: seq<T>, high: seq<T>, x: T)
    requires forall k :: 0 <= k < |low| ==> rank(low[k]) <= rank(x)
    requires forall k :: 0 <= k < |high| ==> rank(high[k]) > rank(x)
    ensures InsertBy(rank, low + high, x) == low + [x] + high
    decreases |high|
  {
    if high == [] {
      assert low + high == low;
    } else {
      var n := |high| - 1;
      assert (low + high)[..|low + high| - 1] == low + high[..n];
      InsertSmall(rank, low, high[..n], x);
      assert low + [x] + high == low + [x] + high[..n] + [high[n]];
    }
  }

  /** Sorting by centre rank puts the centres first, keeps the order on both sides, and loses nothing. */
  lemma SortedCentersFirst(s: seq<Budget>)
    ensures SortBy(CenterRank, s) == Members(s, IsCenter, true) + Members(s, IsCenter, false)
    ensures multiset(SortBy(CenterRank, s)) == multiset(s)
  {
    hide SortBy, Members;
    CentersFirst(s);
    CentersAndOthers(s);
  }

  lemma {:induction false} CentersAndOthers(s: seq<Budget>)
    ensures multiset(Members(s, IsCenter, true)) + multiset(Members(s, IsCenter, false)) == multiset(s)
  {
    hide IsCenter, Members;
    if s == [] {
      NoMembers(IsCenter, true);
      NoMembers(IsCenter, false);
    } else {
      var n := |s| - 1;
      CentersAndOthers(s[..n]);
      assert s == s[..n] + [s[n]];
      var centers, others := Members(s[..n], IsCenter, true), Members(s[..n], IsCenter, false);
      MembersGrow(s[..n], s[n], IsCenter, true);
      MembersGrow(s[..n], s[n], IsCenter, false);
      assert multiset(s) == multiset(s[..n]) + multiset{s[n]};
      if IsCenter(s[n]) {
        assert Members(s, IsCenter, true) == centers + [s[n]] && Members(s, IsCenter, false) == others + [];
      } else {
        assert Members(s, IsCenter, true) == centers + [] && Members(s, IsCenter, false) == others + [s[n]];
      }
    }
  }

  lemma {:induction false} CentersFirst(s: seq<Budget>)
    ensures SortBy(CenterRank, s) == Members(s, IsCenter, true) + Members(s, IsCenter, false)
  {
    hide IsCenter, InsertBy;
    if s != [] {
      var n := |s| - 1;
      var centers, others := Members(s[..n], IsCenter, true), Members(s[..n], IsCenter, false);
      CentersFirst(s[..n]);
      if IsCenter(s[n]) {
        InsertSmall(CenterRank, centers, others, s[n]);
      } else {
        InsertSmall(CenterRank, centers + others, [], s[n]);
        assert centers + others + [] == centers + others && centers + others + [s[n]] == centers + (others + [s[n]]);
      }
    }
  }

  /** Sorting what is in order changes nothing. */
  lemma {:induction false} SortedStays<T>(rank: T -> int, s: seq<T>)
    requires forall i, j :: 0 <= i < j < |s| ==> rank(s[i]) <= rank(s[j])
    ensures SortBy(rank, s) == s
  {
    if s != [] {
      SortedStays(rank, s[..|s| - 1]);
      assert s == s[..|s| - 1] + [s[|s| - 1]];
    }
  }

  // ---------------------------------------------------------------------------------------
  // The specification of the groups
  // ---------------------------------------------------------------------------------------

  function Children(items: seq<Budget>, key: string): seq<Budget> {
    Members(items, KeyOf, key)
  }

  /** The position of the first budget of a key. */
  function FirstIndex(items: seq<Budget>, key: string): (i: nat)
    requires key in FirstKeys(items, KeyOf)
    ensures i < |items| && KeyOf(items[i]) == key
    ensures forall j :: 0 <= j < i ==> KeyOf(items[j]) != key
  {
    var n := |items| - 1;
    if key in FirstKeys(items[..n], KeyOf) then
      var i := FirstIndex(items[..n], key);
      assert forall j :: 0 <= j < n ==> items[..n][j] == items[j];
      i
    else
      EveryKeyAppears(items[..n], KeyOf);
      assert forall j :: 0 <= j < n ==> items[..n][j] == items[j];
      n
  }

  /** The distinct account names of some budgets, in order of first appearance. */
  function Accounts(children: seq<Budget>): seq<string> {
    FirstKeys(children, Account)
  }

  /** Each account name that one of the budgets has, once. */
  lemma AccountsOfKey(items: seq<Budget>, key: string, name: string)
    ensures Distinct(Accounts(Children(items, key)))
    ensures name in Accounts(Children(items, key))
            <==> exists k :: 0 <= k < |items| && KeyOf(items[k]) == key && ListedAs(items[k], name)
  {
    hide KeyOf, Account, Members, FirstKeys, ListedAs;
    forall b ensures Account(b) == name <==> ListedAs(b, name) { AccountIff(b, name); }
    var children := Children(items, key);
    FirstKeysAreDistinct(children, Account);
    AppearsIffMembers(children, Account, name);
    EveryKeyAppears(children, Account);
    MembersOccur(items, KeyOf, key);
    MembersOccur(children, Account, name);
    var named := Members(children, Account, name);
    if named != [] {
      var at :| 0 <= at < |children| && children[at] == named[0];
      var k :| 0 <= k < |items| && items[k] == children[at];
    }
    if k: int :| 0 <= k < |items| && KeyOf(items[k]) == key && Account(items[k]) == name {
      var at :| 0 <= at < |children| && children[at] == items[k];
    }
  }

  function DraftOf(items: seq<Budget>, key: string): Draft
    requires key in FirstKeys(items, KeyOf)
  {
    var i := FirstIndex(items, key);
    Draft(items[i], i, Accounts(Children(items, key)), Children(items, key))
  }

  /** The budgets that the totals of a group add up: those that are not centres, or all of them when there are only
      centres. */
  function Counted(children: seq<Budget>): seq<Budget> {
    if exists k :: 0 <= k < |children| && !IsCenter(children[k]) then Members(children, IsCenter, false) else children
  }

  function Finished(key: string, draft: Draft): Group {
    var b, totals := draft.first, Counted(draft.children);
    Group(key, b.centerId, Or(b.centerName, UNBOUND), b.centerCode, Or(b.currency, "CNY"), draft.firstIndex,
          draft.accounts, Sum(totals, AmountOf), Sum(totals, ReservedOf), Sum(totals, SpentOf),
              Sum(totals, AvailableOf),
          |Members(draft.children, AiStatus, "pending_closure")|, |Members(draft.children, AiStatus, "exception")|,
          SortBy(CenterRank, draft.children))
  }

  /** The groups of a list in order of first appearance. */
  function Groups(items: seq<Budget>): (groups: seq<Group>)
    ensures |groups| == |FirstKeys(items, KeyOf)|
  {
    var keys := FirstKeys(items, KeyOf);
    seq(|keys|, k requires 0 <= k < |keys| => Finished(keys[k], DraftOf(items, keys[k])))
  }

  // ---------------------------------------------------------------------------------------
  // Building the groups
  // ---------------------------------------------------------------------------------------

  /** The map while the budgets are read: its keys in order of insertion, and a draft for each. */
  ghost predicate Drafted(items: seq<Budget>, keys: seq<string>, drafts: map<string, Draft>) {
    && keys == FirstKeys(items, KeyOf)
    && (forall key :: key in drafts <==> key in keys)
    && (forall key :: key in drafts ==> drafts[key] == DraftOf(items, key))
  }

  /** Reading one more budget into its group. */
  function Read(drafts: map<string, Draft>, b: Budget, index: nat): map<string, Draft> {
    var key := KeyOf(b);
    var draft := if key in drafts then drafts[key] else Draft(b, index, [], []);
    var accounts := if Account(b) in draft.accounts then draft.accounts else draft.accounts + [Account(b)];
    drafts[key := Draft(draft.first, draft.firstIndex, accounts, draft.children + [b])]
  }

  lemma DraftGrows(items: seq<Budget>, b: Budget, key: string)
    requires key in FirstKeys(items, KeyOf)
    ensures key in FirstKeys(items + [b], KeyOf)
    ensures var draft := DraftOf(items, key);
            DraftOf(items + [b], key)
            == if KeyOf(b) != key then draft
               else Draft(draft.first, draft.firstIndex,
                          if Account(b) in draft.accounts then draft.accounts else draft.accounts + [Account(b)],
                          draft.children + [b])
  {
    hide Members, FirstKeys;
    FirstKeysGrow(items, b, KeyOf);
    MembersGrow(items, b, KeyOf, key);
    FirstKeysGrow(Children(items, key), b, Account);
    SameFirstIndex(items, b, key);
    assert Children(items, key) + [] == Children(items, key);
    assert (items + [b])[FirstIndex(items, key)] == items[FirstIndex(items, key)];
  }

  lemma SameFirstIndex(items: seq<Budget>, b: Budget, key: string)
    requires key in FirstKeys(items, KeyOf) && key in FirstKeys(items + [b], KeyOf)
    ensures FirstIndex(items + [b], key) == FirstIndex(items, key)
  {
    assert (items + [b])[..|items|] == items;
  }

  lemma NewDraft(items: seq<Budget>, b: Budget)
    requires KeyOf(b) !in FirstKeys(items, KeyOf)
    ensures KeyOf(b) in FirstKeys(items + [b], KeyOf)
    ensures DraftOf(items + [b], KeyOf(b)) == Draft(b, |items|, [Account(b)], [b])
  {
    assert (items + [b])[..|items|] == items;
    FirstKeysGrow(items, b, KeyOf);
    AppearsIffMembers(items, KeyOf, KeyOf(b));
    MembersGrow(items, b, KeyOf, KeyOf(b));
    FirstKeysGrow([], b, Account);
    assert [] + [b] == [b];
  }

  lemma ReadKeepsDrafted(items: seq<Budget>, b: Budget, keys: seq<string>, drafts: map<string, Draft>)
    requires Drafted(items, keys, drafts)
    ensures Drafted(items + [b], if KeyOf(b) in drafts then keys else keys + [KeyOf(b)], Read(drafts, b, |items|))
  {
    hide Members, FirstKeys, DraftOf;
    FirstKeysGrow(items, b, KeyOf);
    forall key | key in keys ensures key in FirstKeys(items + [b], KeyOf) {
      DraftGrows(items, b, key);
    }
    forall key | key in keys
      ensures DraftOf(items + [b], key) == Read(drafts, b, |items|)[key]
    {
      DraftGrows(items, b, key);
    }
    if KeyOf(b) !in drafts {
      NewDraft(items, b);
    }
  }

  lemma NothingDrafted()
    ensures Drafted([], [], map[])
  {
  }

  /** Reads the budgets into an insertion-ordered map of drafts. */
  method DraftGroups(items: seq<Budget>) returns (keys: seq<string>, drafts: map<string, Draft>)
    ensures Drafted(items, keys, drafts)
  {
    hide Drafted;
    keys, drafts := [], map[];
    NothingDrafted();
    for index := 0 to |items|
      invariant Drafted(items[..index], keys, drafts)
    {
      var b := items[index];
      ReadKeepsDrafted(items[..index], b, keys, drafts);
      assert items[..index + 1] == items[..index] + [b];
      ghost var before := drafts;
      var key := KeyOf(b);
      if key !in drafts {
        keys := keys + [key];
        drafts := drafts[key := Draft(b, index, [], [])];
      }
      var group := drafts[key];
      group := group.(children := group.children + [b]);
      if Account(b) !in group.accounts {
        group := group.(accounts := group.accounts + [Account(b)]);
      }
      drafts := drafts[key := group];
      assert drafts == Read(before, b, index);
    }
    assert items[..|items|] == items;
  }

  method BuildGroups(items: seq<Budget>) returns (groups: seq<Group>)
    ensures groups == Groups(items)
  {
    hide Finished, DraftOf, FirstKeys, SortBy;
    var keys, drafts := DraftGroups(items);
    groups := [];
    for k := 0 to |keys|
      invariant |groups| == k && forall j :: 0 <= j < k ==> groups[j] == Finished(keys[j], drafts[keys[j]])
    {
      groups := groups + [Finished(keys[k], drafts[keys[k]])];
    }
    assert groups == Groups(items);
    FirstIndexSortIsIdentity(items);
    groups := SortBy(IndexOfGroup, groups);
  }

  lemma {:induction false} FirstIndexAscends(items: seq<Budget>, i: nat, j: nat)
    requires i < j < |FirstKeys(items, KeyOf)|
    ensures FirstIndex(items, FirstKeys(items, KeyOf)[i]) < FirstIndex(items, FirstKeys(items, KeyOf)[j])
  {
    hide KeyOf;
    var n := |items| - 1;
    var keys, before := FirstKeys(items, KeyOf), FirstKeys(items[..n], KeyOf);
    FirstKeysAreDistinct(items, KeyOf);
    assert items == items[..n] + [items[n]];
    if j < |before| {
      FirstIndexAscends(items[..n], i, j);
    }
  }

  /** The final sort by first index changes nothing. */
  lemma FirstIndexSortIsIdentity(items: seq<Budget>)
    ensures SortBy(IndexOfGroup, Groups(items)) == Groups(items)
  {
    var groups := Groups(items);
    forall i, j | 0 <= i < j < |groups| ensures IndexOfGroup(groups[i]) <= IndexOfGroup(groups[j]) {
      FirstIndexAscends(items, i, j);
    }
    SortedStays(IndexOfGroup, groups);
  }

  // ---------------------------------------------------------------------------------------
  // The three sections
  // ---------------------------------------------------------------------------------------

  datatype Page = Page(review: seq<Group>, active: seq<Group>, archived: seq<Group>, all: seq<Group>,
                       reviewCount: nat, activeCount: nat, archivedCount: nat)

  method Rollup(budgets: seq<Budget>) returns (page: Page)
    ensures page.review == Groups(Members(budgets, ArchiveState, Review))
    ensures page.active == Groups(Members(budgets, ArchiveState, Active))
    ensures page.archived == Groups(Members(budgets, ArchiveState, Archived))
    ensures page.all == Groups(budgets)
    ensures page.reviewCount == |Members(budgets, ArchiveState, Review)|
    ensures page.activeCount == |Members(budgets, ArchiveState, Active)|
    ensures page.archivedCount == |Members(budgets, ArchiveState, Archived)|
  {
    hide Groups, ArchiveState;
    var review, active, archived := [], [], [];
    for i := 0 to |budgets|
      invariant review == Members(budgets[..i], ArchiveState, Review)
      invariant active == Members(budgets[..i], ArchiveState, Active)
      invariant archived == Members(budgets[..i], ArchiveState, Archived)
    {
      assert budgets[..i + 1][..i] == budgets[..i];
      match ArchiveState(budgets[i]) {
        case Review => review := review + [budgets[i]];
        case Active => active := active + [budgets[i]];
        case Archived => archived := archived + [budgets[i]];
      }
    }
    assert budgets[..|budgets|] == budgets;
    var reviewGroups := BuildGroups(review);
    var activeGroups := BuildGroups(active);
    var archivedGroups := BuildGroups(archived);
    var all := BuildGroups(budgets);
    page := Page(reviewGroups, activeGroups, archivedGroups, all, |review|, |active|, |archived|);
  }

  function AllChildren(groups: seq<Group>): seq<Budget> {
    if groups == [] then [] else AllChildren(groups[..|groups| - 1]) + groups[|groups| - 1].children
  }

  /** The children of the first groups are the members of the first keys, up to order. */
  lemma {:induction false} ChildrenAreListed(items: seq<Budget>, n: nat)
    requires n <= |Groups(items)|
    ensures multiset(AllChildren(Groups(items)[..n])) == multiset(Listed(items, KeyOf, FirstKeys(items, KeyOf)[..n]))
  {
    if n > 0 {
      var groups, keys := Groups(items), FirstKeys(items, KeyOf);
      ChildrenAreListed(items, n - 1);
      ChildrenOfGroup(items, n - 1);
      hide *;
      OneMoreGroup(groups, n);
      OneMoreKey(items, keys, n);
    }
  }

  lemma ChildrenOfGroup(items: seq<Budget>, k: nat)
    requires k < |Groups(items)|
    ensures multiset(Groups(items)[k].children) == multiset(Members(items, KeyOf, FirstKeys(items, KeyOf)[k]))
  {
    hide SortBy, Members, FirstKeys, Counted, Sum;
    SortedCentersFirst(Children(items, FirstKeys(items, KeyOf)[k]));
  }

  lemma OneMoreGroup(groups: seq<Group>, n: nat)
    requires 0 < n <= |groups|
    ensures multiset(AllChildren(groups[..n]))
            == multiset(AllChildren(groups[..n - 1])) + multiset(groups[n - 1].children)
  {
    assert groups[..n][..n - 1] == groups[..n - 1];
  }

  lemma OneMoreKey(items: seq<Budget>, keys: seq<string>, n: nat)
    requires 0 < n <= |keys|
    ensures multiset(Listed(items, KeyOf, keys[..n]))
            == multiset(Listed(items, KeyOf, keys[..n - 1])) + multiset(Members(items, KeyOf, keys[n - 1]))
  {
    assert keys[..n][..n - 1] == keys[..n - 1];
  }

  /** The groups of a list have distinct ids, hold only budgets of their own key, and together
      hold every budget once. */
  lemma GroupsPartition(items: seq<Budget>)
    ensures forall i, j :: 0 <= i < j < |Groups(items)| ==> Groups(items)[i].id != Groups(items)[j].id
    ensures forall i :: 0 <= i < |Groups(items)| ==> forall b :: b in Groups(items)[i].children ==>
              KeyOf(b) == Groups(items)[i].id
    ensures multiset(AllChildren(Groups(items))) == multiset(items)
  {
    hide SortBy, Members, FirstKeys, Listed, KeyOf, AllChildren, Counted, Sum;
    var groups, keys := Groups(items), FirstKeys(items, KeyOf);
    FirstKeysAreDistinct(items, KeyOf);
    EveryKeyAppears(items, KeyOf);
    ChildrenAreListed(items, |groups|);
    assert groups[..|groups|] == groups && keys[..|keys|] == keys;
    ListedIsAll(items, KeyOf, keys);
    forall i | 0 <= i < |groups| ensures forall b :: b in groups[i].children ==> KeyOf(b) == groups[i].id {
      SortedCentersFirst(Children(items, keys[i]));
      assert forall b :: b in groups[i].children ==> b in multiset(groups[i].children);
    }
  }

  lemma BudgetsAreSectioned(budgets: seq<Budget>)
    ensures multiset(Members(budgets, ArchiveState, Review)) + multiset(Members(budgets, ArchiveState, Active))
            + multiset(Members(budgets, ArchiveState, Archived)) == multiset(budgets)
  {
    hide ArchiveState, Members;
    var sections := [Review, Active, Archived];
    forall section: Section ensures section in sections {
      assert sections[0] == Review && sections[1] == Active && sections[2] == Archived;
      match section { case Review => case Active => case Archived => }
    }
    ListedIsAll(budgets, ArchiveState, sections);
    assert sections[..2] == [Review, Active] && sections[..2][..1] == [Review] && sections[..2][..1][..0] == [];
    assert Listed(budgets, ArchiveState, sections[..2][..1]) == Members(budgets, ArchiveState, Review);
    assert Listed(budgets, ArchiveState, sections[..2])
        == Members(budgets, ArchiveState, Review) + Members(budgets, ArchiveState, Active);
  }

  /** Over the three sections every budget is in exactly one group, once, and in the section of its own state. */
  lemma SectionsPartition(budgets: seq<Budget>)
    ensures multiset(AllChildren(Groups(Members(budgets, ArchiveState, Review))))
            + multiset(AllChildren(Groups(Members(budgets, ArchiveState, Active))))
            + multiset(AllChildren(Groups(Members(budgets, ArchiveState, Archived)))) == multiset(budgets)
    ensures forall section, b :: b in AllChildren(Groups(Members(budgets, ArchiveState, section))) ==>
              ArchiveState(b) == section
  {
    hide Members, AllChildren, Groups, ArchiveState;
    forall section
      ensures multiset(AllChildren(Groups(Members(budgets, ArchiveState, section))))
              == multiset(Members(budgets, ArchiveState, section))
    {
      GroupsPartition(Members(budgets, ArchiveState, section));
    }
    BudgetsAreSectioned(budgets);
    forall section, b | b in AllChildren(Groups(Members(budgets, ArchiveState, section)))
        ensures ArchiveState(b) == section {
      assert b in multiset(AllChildren(Groups(Members(budgets, ArchiveState, section))));
    }
  }

  /** A group shows the cost centre of every budget in it, and without one the name they all show. */
  lemma GroupShowsItsCenter(items: seq<Budget>, k: nat, b: Budget)
    requires k < |Groups(items)| && b in Groups(items)[k].children
    ensures var group := Groups(items)[k];
            b.centerId == group.centerId && (b.centerId == "" ==> Or(b.centerName, UNBOUND) == group.centerName)
  {
    GroupsPartition(items);
    hide SortBy, Members, FirstKeys, KeyOf, Counted, Sum;
    var key := FirstKeys(items, KeyOf)[k];
    SameGroupIff(b, items[FirstIndex(items, key)]);
  }

  /** A group lists each account name that one of its budgets has, once. */
  lemma AccountsAreNames(items: seq<Budget>, k: nat, name: string)
    requires k < |Groups(items)|
    ensures var group := Groups(items)[k];
            && Distinct(group.accounts)
            && (name in group.accounts
                <==> exists j :: 0 <= j < |items| && KeyOf(items[j]) == group.id && ListedAs(items[j], name))
  {
    hide SortBy, Members, FirstKeys, KeyOf, Counted, Sum, Accounts, ListedAs;
    AccountsOfKey(items, FirstKeys(items, KeyOf)[k], name);
  }

  /** A group lists its centres and then its other budgets, each in the order of the list. */
  lemma GroupListsCentersFirst(items: seq<Budget>, k: nat)
    requires k < |Groups(items)|
    ensures var group := Groups(items)[k];
            var own := Children(items, group.id);
            group.children == Members(own, IsCenter, true) + Members(own, IsCenter, false)
  {
    hide SortBy, Members, FirstKeys, KeyOf, Counted, Sum, Accounts, IsCenter;
    SortedCentersFirst(Children(items, FirstKeys(items, KeyOf)[k]));
  }

  /** A group stands where its first budget stands in the list, and has that one's code and currency. */
  lemma GroupShowsFirst(items: seq<Budget>, k: nat)
    requires k < |Groups(items)|
    ensures var group := Groups(items)[k];
            && group.firstIndex < |items| && KeyOf(items[group.firstIndex]) == group.id
            && (forall j :: 0 <= j < group.firstIndex ==> KeyOf(items[j]) != group.id)
            && group.centerCode == items[group.firstIndex].centerCode
            && (items[group.firstIndex].currency != "" ==> group.currency == items[group.firstIndex].currency)
            && (items[group.firstIndex].currency == "" ==> group.currency == "CNY")
  {
    hide SortBy, Members, FirstKeys, KeyOf, Counted, Sum;
  }

  lemma {:induction false} StatusesCount(s: seq<Budget>)
    requires forall k :: 0 <= k < |s| ==> s[k].aiStatus == "pending_closure" || s[k].aiStatus == "exception"
    ensures |Members(s, AiStatus, "pending_closure")| + |Members(s, AiStatus, "exception")| == |s|
  {
    if s != [] {
      StatusesCount(s[..|s| - 1]);
    }
  }

  lemma {:induction false} StatusAbsent(s: seq<Budget>, status: string)
    requires forall k :: 0 <= k < |s| ==> s[k].aiStatus != status
    ensures Members(s, AiStatus, status) == []
  {
    if s != [] {
      StatusAbsent(s[..|s| - 1], status);
    }
  }

  /** The counts of a group are those of its budgets before sorting. */
  lemma CountsOfGroup(items: seq<Budget>, k: nat)
    requires k < |Groups(items)|
    ensures var group, children := Groups(items)[k], Children(items, FirstKeys(items, KeyOf)[k]);
            && group.pending == |Members(children, AiStatus, "pending_closure")|
            && group.exceptions == |Members(children, AiStatus, "exception")|
            && |group.children| == |children|
  {
    hide SortBy, KeyOf, Counted, Sum, Members, FirstKeys, FirstIndex;
    var children := Children(items, FirstKeys(items, KeyOf)[k]);
    SortedCentersFirst(children);
    assert |SortBy(CenterRank, children)| == |multiset(SortBy(CenterRank, children))|;
    assert |children| == |multiset(children)|;
  }

  lemma SectionOfMember(budgets: seq<Budget>, section: Section, key: string)
    ensures var children := Children(Members(budgets, ArchiveState, section), key);
            forall k :: 0 <= k < |children| ==> ArchiveState(children[k]) == section
  {
    hide ArchiveState, KeyOf;
    MembersOccur(Members(budgets, ArchiveState, section), KeyOf, key);
  }

  /** Every budget of a group under review is counted as pending or as an exception, and no active one is. */
  lemma SectionCounts(budgets: seq<Budget>, section: Section, k: nat)
    requires !section.Archived? && k < |Groups(Members(budgets, ArchiveState, section))|
    ensures var group := Groups(Members(budgets, ArchiveState, section))[k];
            if section.Review? then group.pending + group.exceptions == |group.children|
            else group.pending == group.exceptions == 0
  {
    var items := Members(budgets, ArchiveState, section);
    hide SortBy, KeyOf, Counted, Sum, Members, FirstKeys, FirstIndex, Finished, DraftOf;
    var key := FirstKeys(items, KeyOf)[k];
    CountsOfGroup(items, k);
    SectionOfMember(budgets, section, key);
    if section.Review? {
      StatusesCount(Children(items, key));
    } else {
      StatusAbsent(Children(items, key), "pending_closure");
      StatusAbsent(Children(items, key), "exception");
    }
  }

  // ---------------------------------------------------------------------------------------
  // Conservation
  // ---------------------------------------------------------------------------------------

  /** A budget counts unless it is the centre of a group that also has other budgets. */
  predicate Counts(items: seq<Budget>, b: Budget) {
    b.kind != "center" || forall k :: 0 <= k < |items| && KeyOf(items[k]) == KeyOf(b) ==> items[k].kind == "center"
  }

  function Weight(items: seq<Budget>, field: Budget -> real): Budget -> real {
    (b: Budget) => if Counts(items, b) then field(b) else 0.0
  }

  lemma {:induction false} SumOfOthers(children: seq<Budget>, field: Budget -> real, weight: Budget -> real)
    requires forall k :: 0 <= k < |children| ==>
              weight(children[k]) == (if IsCenter(children[k]) then 0.0 else field(children[k]))
    ensures Sum(Members(children, IsCenter, false), field) == Sum(children, weight)
  {
    hide IsCenter, Members;
    if children == [] {
      NoMembers(IsCenter, false);
    } else {
      var n := |children| - 1;
      var before, last := children[..n], children[n];
      SumOfOthers(before, field, weight);
      assert children == before + [last];
      MembersGrow(before, last, IsCenter, false);
      SumGrows(before, last, weight);
      var others := Members(before, IsCenter, false);
      if IsCenter(last) { assert others + [] == others; } else { SumGrows(others, last, field); }
      assert weight(last) == if IsCenter(last) then 0.0 else field(last);
    }
  }

  lemma {:induction false} SumOfSame(children: seq<Budget>, field: Budget -> real, weight: Budget -> real)
    requires forall k :: 0 <= k < |children| ==> weight(children[k]) == field(children[k])
    ensures Sum(children, field) == Sum(children, weight)
  {
    if children != [] { SumOfSame(children[..|children| - 1], field, weight); }
  }

  /** A group's total is the sum of what counts in it. */
  lemma GroupTotal(items: seq<Budget>, key: string, field: Budget -> real)
    ensures Sum(Counted(Children(items, key)), field) == Sum(Children(items, key), Weight(items, field))
  {
    forall b ensures IsCenter(b) <==> b.kind == "center" { CenterIff(b); }
    hide Sum, Members, KeyOf, IsCenter;
    var children := Children(items, key);
    MembersOccur(items, KeyOf, key);
    if exists k :: 0 <= k < |children| && !IsCenter(children[k]) {
      var other :| 0 <= other < |children| && !IsCenter(children[other]);
      var at :| 0 <= at < |items| && items[at] == children[other];
      forall k | 0 <= k < |children|
          ensures Weight(items, field)(children[k]) == if IsCenter(children[k]) then 0.0 else field(children[k]) {
        assert KeyOf(items[at]) == KeyOf(children[k]);
      }
      SumOfOthers(children, field, Weight(items, field));
    } else {
      forall k | 0 <= k < |children| ensures Counts(items, children[k]) {
      }
      SumOfSame(children, field, Weight(items, field));
    }
  }

  /** The totals that the groups show for one field. */
  function Totals(items: seq<Budget>, keys: seq<string>, field: Budget -> real): real {
    if keys == [] then 0.0
    else Totals(items, keys[..|keys| - 1], field) + Sum(Counted(Children(items, keys[|keys| - 1])), field)
  }

  lemma {:induction false} TotalsAreSums(items: seq<Budget>, keys: seq<string>, field: Budget -> real)
    ensures Totals(items, keys, field) == SumOfGroups(items, KeyOf, keys, Weight(items, field))
  {
    hide Sum, Counted, Members, Weight;
    if keys != [] {
      TotalsAreSums(items, keys[..|keys| - 1], field);
      GroupTotal(items, keys[|keys| - 1], field);
    }
  }

  /** The four totals of a group add up what counts of its own budgets. */
  lemma GroupShowsTotals(items: seq<Budget>, k: nat)
    requires k < |Groups(items)|
    ensures var group := Groups(items)[k];
            var own := Children(items, group.id);
            && group.amount == Sum(own, (b: Budget) => if Counts(items, b) then b.amount else 0.0)
            && group.reserved == Sum(own, (b: Budget) => if Counts(items, b) then b.reserved else 0.0)
            && group.spent == Sum(own, (b: Budget) => if Counts(items, b) then b.spent else 0.0)
            && group.available == Sum(own, (b: Budget) => if Counts(items, b) then b.available else 0.0)
  {
    hide Sum, Counts, Counted, Members, FirstKeys, SortBy, KeyOf;
    var key := FirstKeys(items, KeyOf)[k];
    var own := Children(items, key);
    GroupTotal(items, key, AmountOf);
    GroupTotal(items, key, ReservedOf);
    GroupTotal(items, key, SpentOf);
    GroupTotal(items, key, AvailableOf);
    SumOfSame(own, Weight(items, AmountOf), (b: Budget) => if Counts(items, b) then b.amount else 0.0);
    SumOfSame(own, Weight(items, ReservedOf), (b: Budget) => if Counts(items, b) then b.reserved else 0.0);
    SumOfSame(own, Weight(items, SpentOf), (b: Budget) => if Counts(items, b) then b.spent else 0.0);
    SumOfSame(own, Weight(items, AvailableOf), (b: Budget) => if Counts(items, b) then b.available else 0.0);
  }

  /** Over all groups of a list, each field adds up to the sum over the budgets that count: none is lost or counted
      twice. */
  lemma RollupConserves(items: seq<Budget>)
    ensures Sum(Groups(items), (g: Group) => g.amount)
            == Sum(items, (b: Budget) => if Counts(items, b) then b.amount else 0.0)
    ensures Sum(Groups(items), (g: Group) => g.reserved)
            == Sum(items, (b: Budget) => if Counts(items, b) then b.reserved else 0.0)
    ensures Sum(Groups(items), (g: Group) => g.spent)
            == Sum(items, (b: Budget) => if Counts(items, b) then b.spent else 0.0)
    ensures Sum(Groups(items), (g: Group) => g.available)
            == Sum(items, (b: Budget) => if Counts(items, b) then b.available else 0.0)
  {
    hide Sum, Counts, Counted, Members, FirstKeys, SortBy;
    FieldConserved(items, AmountOf, (g: Group) => g.amount);
    FieldConserved(items, ReservedOf, (g: Group) => g.reserved);
    FieldConserved(items, SpentOf, (g: Group) => g.spent);
    FieldConserved(items, AvailableOf, (g: Group) => g.available);
    SumOfSame(items, Weight(items, AmountOf), (b: Budget) => if Counts(items, b) then b.amount else 0.0);
    SumOfSame(items, Weight(items, ReservedOf), (b: Budget) => if Counts(items, b) then b.reserved else 0.0);
    SumOfSame(items, Weight(items, SpentOf), (b: Budget) => if Counts(items, b) then b.spent else 0.0);
    SumOfSame(items, Weight(items, AvailableOf), (b: Budget) => if Counts(items, b) then b.available else 0.0);
  }

  lemma FieldConserved(items: seq<Budget>, field: Budget -> real, shown: Group -> real)
    requires forall k :: 0 <= k < |Groups(items)| ==>
              shown(Groups(items)[k]) == Sum(Counted(Children(items, FirstKeys(items, KeyOf)[k])), field)
    ensures Sum(Groups(items), shown) == Sum(items, Weight(items, field))
  {
    hide Sum, SumOfGroups, FirstKeys, Weight, Counted, Members;
    var keys := FirstKeys(items, KeyOf);
    ShownTotals(items, |keys|, field, shown);
    assert Groups(items)[..|keys|] == Groups(items) && keys[..|keys|] == keys;
    TotalsAreSums(items, keys, field);
    FirstKeysAreDistinct(items, KeyOf);
    EveryKeyAppears(items, KeyOf);
    GroupsSumUp(items, KeyOf, keys, Weight(items, field));
  }

  lemma {:induction false} ShownTotals(items: seq<Budget>, n: nat, field: Budget -> real, shown: Group -> real)
    requires n <= |Groups(items)|
    requires forall k :: 0 <= k < |Groups(items)| ==>
              shown(Groups(items)[k]) == Sum(Counted(Children(items, FirstKeys(items, KeyOf)[k])), field)
    ensures Sum(Groups(items)[..n], shown) == Totals(items, FirstKeys(items, KeyOf)[..n], field)
  {
    hide Groups, Counted, Members, FirstKeys;
    if n > 0 {
      var groups, keys := Groups(items), FirstKeys(items, KeyOf);
      ShownTotals(items, n - 1, field, shown);
      assert groups[..n][..n - 1] == groups[..n - 1] && keys[..n][..n - 1] == keys[..n - 1];
    }
  }
}
