/** The sample data a first-time user starts with: three spaces, seven groups
    and fourteen bookmarks. Every id comes from `generateId`; the `k`-th call of
    a builder draws the random bytes `rand(k)`. */
module Seed {
  import opened Common
  import opened Collections
  import opened Entities
  import opened EntityIds
  import opened Invariants

  /** One sample bookmark before it is placed in a group. */
  datatype Entry = Entry(title: string, url: string, faviconUrl: Option<string>)

  const DevelopmentEntries: seq<Entry> := [
    Entry("GitHub", "https://github.com", Some("https://github.githubassets.com/favicons/favicon.svg")),
    Entry("Stack Overflow", "https://stackoverflow.com", None),
    Entry("VS Code", "https://code.visualstudio.com", None),
    Entry("npm", "https://npmjs.com", None)]
  const DesignEntries: seq<Entry> := [
    Entry("Figma", "https://figma.com", None),
    Entry("Dribbble", "https://dribbble.com", None)]
  const DocumentationEntries: seq<Entry> := [
    Entry("MDN Web Docs", "https://developer.mozilla.org", None)]
  const SocialEntries: seq<Entry> := [
    Entry("Twitter", "https://twitter.com", None),
    Entry("LinkedIn", "https://linkedin.com", None)]
  const ShoppingEntries: seq<Entry> := [
    Entry("Amazon", "https://amazon.com", None)]
  const CoursesEntries: seq<Entry> := [
    Entry("Udemy", "https://udemy.com", None),
    Entry("Coursera", "https://coursera.org", None)]
  const ArticlesEntries: seq<Entry> := [
    Entry("Medium", "https://medium.com", None),
    Entry("Dev.to", "https://dev.to", None)]

  function NewSpace(id: string, userId: string, name: string, icon: string, order: int, now: Timestamp): Space {
    Space(id, userId, name, icon, None, order, false, now, now)
  }

  /** `getSeedSpaces(userId)` */
  function SeedSpaces(userId: string, rand: nat -> seq<byte>, now: Timestamp): (r: seq<Space>)
    ensures |r| == 3
    ensures r[0].name == "Work" && r[1].name == "Personal" && r[2].name == "Learning"
    ensures DenselyOrdered(r, SpaceOrder)
    ensures forall i :: 0 <= i < 3 ==> r[i].id == IdFor(SpaceKind, rand(i))
    ensures forall s :: s in r ==> s.userId == userId && !s.isArchived && s.createdAt == s.updatedAt == now
  {
    [NewSpace(IdFor(SpaceKind, rand(0)), userId, "Work", "💼", 0, now),
     NewSpace(IdFor(SpaceKind, rand(1)), userId, "Personal", "🏠", 1, now),
     NewSpace(IdFor(SpaceKind, rand(2)), userId, "Learning", "📚", 2, now)]
  }

  /** `spaces.find((s) => s.name === name)` */
  function SpaceNamed(spaces: seq<Space>, name: string): (r: Option<Space>)
    ensures r.Some? ==> r.value in spaces && r.value.name == name
    ensures r.None? <==> forall s :: s in spaces ==> s.name != name
  {
    Find(spaces, (s: Space) => s.name == name)
  }

  /** The groups named `names`, in that order, of `space`, numbered from 0;
      the `i`-th draws the id `rand(k + i)`. */
  function GroupBlock(userId: string, space: Space, names: seq<string>, rand: nat -> seq<byte>, k: nat,
                      now: Timestamp): (r: seq<Group>)
    ensures |r| == |names|
    ensures forall i :: 0 <= i < |r| ==>
      r[i] == Group(IdFor(GroupKind, rand(k + i)), userId, space.id, names[i], None, i, false, now, now)
  {
    seq(|names|, i requires 0 <= i < |names| =>
      Group(IdFor(GroupKind, rand(k + i)), userId, space.id, names[i], None, i, false, now, now))
  }

  const WorkGroupNames: seq<string> := ["Development", "Design", "Documentation"]
  const PersonalGroupNames: seq<string> := ["Social", "Shopping"]
  const LearningGroupNames: seq<string> := ["Courses", "Articles"]

  /** The block of groups pushed for the space named `spaceName`, when there is one. */
  function GroupsOf(userId: string, spaces: seq<Space>, spaceName: string, names: seq<string>,
                    rand: nat -> seq<byte>, k: nat, now: Timestamp): seq<Group> {
    match SpaceNamed(spaces, spaceName)
    case None => []
    case Some(space) => GroupBlock(userId, space, names, rand, k, now)
  }

  /** `getSeedGroups(userId, spaces)` */
  method GetSeedGroups(userId: string, spaces: seq<Space>, rand: nat -> seq<byte>, now: Timestamp)
    returns (groups: seq<Group>)
    ensures GroupsReferToSpaces(spaces, groups)
    ensures forall g :: g in groups ==> g.userId == userId && !g.isArchived && g.createdAt == g.updatedAt == now
    ensures forall i :: 0 <= i < |groups| ==> groups[i].id == IdFor(GroupKind, rand(i))
    ensures |groups| == (if SpaceNamed(spaces, "Work").Some? then 3 else 0)
                      + (if SpaceNamed(spaces, "Personal").Some? then 2 else 0)
                      + (if SpaceNamed(spaces, "Learning").Some? then 2 else 0)
    ensures SeedGroupsFound(spaces, groups)
    ensures UniqueSpaceIds(spaces) ==> GroupsDensePerSpace(groups)
  {
    var work := SpaceNamed(spaces, "Work");
    var personal := SpaceNamed(spaces, "Personal");
    var learning := SpaceNamed(spaces, "Learning");
    var w, p, l := [], [], [];
    if work.Some? {
      w := GroupBlock(userId, work.value, WorkGroupNames, rand, 0, now);
    }
    assert w == GroupsOf(userId, spaces, "Work", WorkGroupNames, rand, 0, now);
    if personal.Some? {
      p := GroupBlock(userId, personal.value, PersonalGroupNames, rand, |w|, now);
    }
    assert p == GroupsOf(userId, spaces, "Personal", PersonalGroupNames, rand, |w|, now);
    if learning.Some? {
      l := GroupBlock(userId, learning.value, LearningGroupNames, rand, |w| + |p|, now);
    }
    assert l == GroupsOf(userId, spaces, "Learning", LearningGroupNames, rand, |w| + |p|, now);
    groups := w + p + l;
    SeedGroupsFields(userId, spaces, rand, now, w, p, l);
    SeedGroupsAllFound(userId, spaces, rand, now, w, p, l);
    SeedGroupsDense(userId, spaces, rand, now, w, p, l);
  }

  /** Each space of the seed plan that exists holds its groups. */
  ghost predicate SeedGroupsFound(spaces: seq<Space>, groups: seq<Group>) {
    && (SpaceNamed(spaces, "Work").Some? ==>
         forall n :: n in WorkGroupNames ==> FindGroup(spaces, groups, "Work", n).Some?)
    && (SpaceNamed(spaces, "Personal").Some? ==>
         forall n :: n in PersonalGroupNames ==> FindGroup(spaces, groups, "Personal", n).Some?)
    && (SpaceNamed(spaces, "Learning").Some? ==>
         forall n :: n in LearningGroupNames ==> FindGroup(spaces, groups, "Learning", n).Some?)
  }

  ghost predicate SeedGroupBlocks(userId: string, spaces: seq<Space>, rand: nat -> seq<byte>, now: Timestamp,
                                  w: seq<Group>, p: seq<Group>, l: seq<Group>) {
    && w == GroupsOf(userId, spaces, "Work", WorkGroupNames, rand, 0, now)
    && p == GroupsOf(userId, spaces, "Personal", PersonalGroupNames, rand, |w|, now)
    && l == GroupsOf(userId, spaces, "Learning", LearningGroupNames, rand, |w| + |p|, now)
  }

  /** What one block of seed groups holds. */
  lemma GroupsOfFacts(userId: string, spaces: seq<Space>, spaceName: string, names: seq<string>,
                      rand: nat -> seq<byte>, k: nat, now: Timestamp)
    ensures var b := GroupsOf(userId, spaces, spaceName, names, rand, k, now);
      && |b| == (if SpaceNamed(spaces, spaceName).Some? then |names| else 0)
      && (forall g :: g in b ==> && SpaceNamed(spaces, spaceName).Some?
                                 && g.spaceId == SpaceNamed(spaces, spaceName).value.id
                                 && (exists s :: s in spaces && s.id == g.spaceId)
                                 && g.userId == userId && !g.isArchived && g.createdAt == g.updatedAt == now)
      && (forall i :: 0 <= i < |b| ==> && b[i].id == IdFor(GroupKind, rand(k + i))
                                       && b[i].order == i && b[i].name == names[i]
                                       && b[i].spaceId == SpaceNamed(spaces, spaceName).value.id)
  {
  }

  lemma SeedGroupsFields(userId: string, spaces: seq<Space>, rand: nat -> seq<byte>, now: Timestamp,
                         w: seq<Group>, p: seq<Group>, l: seq<Group>)
    requires SeedGroupBlocks(userId, spaces, rand, now, w, p, l)
    ensures GroupsReferToSpaces(spaces, w + p + l)
    ensures forall g :: g in w + p + l ==> g.userId == userId && !g.isArchived && g.createdAt == g.updatedAt == now
    ensures forall i :: 0 <= i < |w + p + l| ==> (w + p + l)[i].id == IdFor(GroupKind, rand(i))
    ensures |w + p + l| == (if SpaceNamed(spaces, "Work").Some? then 3 else 0)
                         + (if SpaceNamed(spaces, "Personal").Some? then 2 else 0)
                         + (if SpaceNamed(spaces, "Learning").Some? then 2 else 0)
  {
    GroupsOfFacts(userId, spaces, "Work", WorkGroupNames, rand, 0, now);
    GroupsOfFacts(userId, spaces, "Personal", PersonalGroupNames, rand, |w|, now);
    GroupsOfFacts(userId, spaces, "Learning", LearningGroupNames, rand, |w| + |p|, now);
    var groups := w + p + l;
    forall g | g in groups
      ensures (exists s :: s in spaces && s.id == g.spaceId)
      ensures g.userId == userId && !g.isArchived && g.createdAt == g.updatedAt == now
    {
      assert g in w || g in p || g in l;
    }
    forall i | 0 <= i < |groups| ensures groups[i].id == IdFor(GroupKind, rand(i)) {
      if i < |w| {
        assert groups[i] == w[i];
      } else if i < |w| + |p| {
        assert groups[i] == p[i - |w|];
      } else {
        assert groups[i] == l[i - |w| - |p|];
      }
    }
  }

  lemma SeedGroupsAllFound(userId: string, spaces: seq<Space>, rand: nat -> seq<byte>, now: Timestamp,
                           w: seq<Group>, p: seq<Group>, l: seq<Group>)
    requires SeedGroupBlocks(userId, spaces, rand, now, w, p, l)
    ensures SeedGroupsFound(spaces, w + p + l)
  {
    WorkGroupsFound(userId, spaces, rand, now, w, p, l);
    PersonalGroupsFound(userId, spaces, rand, now, w, p, l);
    LearningGroupsFound(userId, spaces, rand, now, w, p, l);
  }

  lemma WorkGroupsFound(userId: string, spaces: seq<Space>, rand: nat -> seq<byte>, now: Timestamp,
                        w: seq<Group>, p: seq<Group>, l: seq<Group>)
    requires w == GroupsOf(userId, spaces, "Work", WorkGroupNames, rand, 0, now)
    ensures SpaceNamed(spaces, "Work").Some? ==>
      forall n :: n in WorkGroupNames ==> FindGroup(spaces, w + p + l, "Work", n).Some?
  {
    if SpaceNamed(spaces, "Work").Some? {
      BlockFound(userId, spaces, "Work", WorkGroupNames, rand, 0, now, [], p + l);
      assert [] + w + (p + l) == w + p + l;
    }
  }

  lemma PersonalGroupsFound(userId: string, spaces: seq<Space>, rand: nat -> seq<byte>, now: Timestamp,
                            w: seq<Group>, p: seq<Group>, l: seq<Group>)
    requires p == GroupsOf(userId, spaces, "Personal", PersonalGroupNames, rand, |w|, now)
    ensures SpaceNamed(spaces, "Personal").Some? ==>
      forall n :: n in PersonalGroupNames ==> FindGroup(spaces, w + p + l, "Personal", n).Some?
  {
    if SpaceNamed(spaces, "Personal").Some? {
      BlockFound(userId, spaces, "Personal", PersonalGroupNames, rand, |w|, now, w, l);
    }
  }

  lemma LearningGroupsFound(userId: string, spaces: seq<Space>, rand: nat -> seq<byte>, now: Timestamp,
                            w: seq<Group>, p: seq<Group>, l: seq<Group>)
    requires l == GroupsOf(userId, spaces, "Learning", LearningGroupNames, rand, |w| + |p|, now)
    ensures SpaceNamed(spaces, "Learning").Some? ==>
      forall n :: n in LearningGroupNames ==> FindGroup(spaces, w + p + l, "Learning", n).Some?
  {
    if SpaceNamed(spaces, "Learning").Some? {
      BlockFound(userId, spaces, "Learning", LearningGroupNames, rand, |w| + |p|, now, w + p, l[|l|..]);
    }
  }

  /** Every group of a pushed block is found again by `findGroup`, whatever
      surrounds the block. */
  lemma BlockFound(userId: string, spaces: seq<Space>, spaceName: string, names: seq<string>,
                   rand: nat -> seq<byte>, k: nat, now: Timestamp, before: seq<Group>, after: seq<Group>)
    requires SpaceNamed(spaces, spaceName).Some?
    ensures forall n :: n in names ==>
      FindGroup(spaces, before + GroupsOf(userId, spaces, spaceName, names, rand, k, now) + after, spaceName, n).Some?
  {
    var b := GroupsOf(userId, spaces, spaceName, names, rand, k, now);
    GroupsOfFacts(userId, spaces, spaceName, names, rand, k, now);
    forall n | n in names ensures FindGroup(spaces, before + b + after, spaceName, n).Some? {
      var i :| 0 <= i < |names| && names[i] == n;
      assert (before + b + after)[|before| + i] == b[i];
      FindGroupFound(spaces, before + b + after, spaceName, n, b[i]);
    }
  }

  lemma SeedGroupsDense(userId: string, spaces: seq<Space>, rand: nat -> seq<byte>, now: Timestamp,
                        w: seq<Group>, p: seq<Group>, l: seq<Group>)
    requires SeedGroupBlocks(userId, spaces, rand, now, w, p, l)
    ensures UniqueSpaceIds(spaces) ==> GroupsDensePerSpace(w + p + l)
  {
    if UniqueSpaceIds(spaces) {
      WorkGroupsDense(userId, spaces, rand, now, w, p, l);
      PersonalGroupsDense(userId, spaces, rand, now, w, p, l);
      AppendSeedGroupBlock(userId, spaces, "Learning", LearningGroupNames, rand, |w| + |p|, now, w + p);
    }
  }

  lemma WorkGroupsDense(userId: string, spaces: seq<Space>, rand: nat -> seq<byte>, now: Timestamp,
                        w: seq<Group>, p: seq<Group>, l: seq<Group>)
    requires SeedGroupBlocks(userId, spaces, rand, now, w, p, l)
    requires UniqueSpaceIds(spaces)
    ensures GroupsDensePerSpace(w)
    ensures forall g :: g in w ==> exists s :: s in spaces && s.id == g.spaceId && s.name == "Work"
  {
    assert GroupsDensePerSpace([]) by {
      forall q ensures DenselyOrdered(Filter([], InSpace(q)), GroupOrder) { }
    }
    AppendSeedGroupBlock(userId, spaces, "Work", WorkGroupNames, rand, 0, now, []);
    assert [] + w == w;
  }

  lemma PersonalGroupsDense(userId: string, spaces: seq<Space>, rand: nat -> seq<byte>, now: Timestamp,
                            w: seq<Group>, p: seq<Group>, l: seq<Group>)
    requires SeedGroupBlocks(userId, spaces, rand, now, w, p, l)
    requires UniqueSpaceIds(spaces)
    requires GroupsDensePerSpace(w)
    requires forall g :: g in w ==> exists s :: s in spaces && s.id == g.spaceId && s.name == "Work"
    ensures GroupsDensePerSpace(w + p)
    ensures forall g :: g in w + p ==> exists s :: s in spaces && s.id == g.spaceId && s.name != "Learning"
  {
    forall g | g in w ensures exists s :: s in spaces && s.id == g.spaceId && s.name != "Personal" {
      var s :| s in spaces && s.id == g.spaceId && s.name == "Work";
    }
    AppendSeedGroupBlock(userId, spaces, "Personal", PersonalGroupNames, rand, |w|, now, w);
    forall g | g in w + p ensures exists s :: s in spaces && s.id == g.spaceId && s.name != "Learning" {
      if g in w {
        var s :| s in spaces && s.id == g.spaceId && s.name == "Work";
      } else {
        var s :| s in spaces && s.id == g.spaceId && s.name == "Personal";
      }
    }
  }

  /** Appending the block of one named space keeps the orders dense, when no
      group so far belongs to a space of that name. */
  lemma AppendSeedGroupBlock(userId: string, spaces: seq<Space>, spaceName: string, names: seq<string>,
                             rand: nat -> seq<byte>, k: nat, now: Timestamp, a: seq<Group>)
    requires UniqueSpaceIds(spaces)
    requires GroupsDensePerSpace(a)
    requires forall g :: g in a ==> exists s :: s in spaces && s.id == g.spaceId && s.name != spaceName
    ensures GroupsDensePerSpace(a + GroupsOf(userId, spaces, spaceName, names, rand, k, now))
    ensures forall g :: g in GroupsOf(userId, spaces, spaceName, names, rand, k, now) ==>
      exists s :: s in spaces && s.id == g.spaceId && s.name == spaceName
  {
    var b := GroupsOf(userId, spaces, spaceName, names, rand, k, now);
    GroupsOfFacts(userId, spaces, spaceName, names, rand, k, now);
    match SpaceNamed(spaces, spaceName)
    case None =>
      assert a + b == a;
    case Some(home) =>
      forall g | g in a ensures g.spaceId != home.id {
        var s :| s in spaces && s.id == g.spaceId && s.name != spaceName;
        if s.id == home.id { SameSpaceId(spaces, s, home); }
      }
      AppendGroupBlock(a, b, home.id);
  }

  /** `findGroup(spaceName, groupName)`: the first group named `groupName` in the
      first space named `spaceName`. */
  function FindGroup(spaces: seq<Space>, groups: seq<Group>, spaceName: string, groupName: string)
    : (r: Option<Group>)
    ensures r.Some? ==> && r.value in groups && r.value.name == groupName
                        && SpaceNamed(spaces, spaceName).Some?
                        && r.value.spaceId == SpaceNamed(spaces, spaceName).value.id
  {
    match SpaceNamed(spaces, spaceName)
    case None => None
    case Some(space) => Find(groups, (g: Group) => g.spaceId == space.id && g.name == groupName)
  }

  lemma FindGroupFound(spaces: seq<Space>, groups: seq<Group>, spaceName: string, groupName: string, g: Group)
    requires g in groups && g.name == groupName
    requires SpaceNamed(spaces, spaceName).Some? && g.spaceId == SpaceNamed(spaces, spaceName).value.id
    ensures FindGroup(spaces, groups, spaceName, groupName).Some?
  {
    var i :| 0 <= i < |groups| && groups[i] == g;
  }

  /** The bookmarks `entries`, in that order, filed under `group` and numbered
      from 0; the `i`-th draws the id `rand(k + i)`. */
  function BookmarkBlock(userId: string, group: Group, entries: seq<Entry>, rand: nat -> seq<byte>, k: nat,
                         now: Timestamp): (r: seq<Bookmark>)
    ensures |r| == |entries|
    ensures forall i :: 0 <= i < |r| ==>
      r[i] == Bookmark(IdFor(BookmarkKind, rand(k + i)), userId, group.spaceId, group.id,
                       entries[i].title, entries[i].url, entries[i].faviconUrl, None, i, false, false, now, now)
  {
    seq(|entries|, i requires 0 <= i < |entries| =>
      Bookmark(IdFor(BookmarkKind, rand(k + i)), userId, group.spaceId, group.id,
               entries[i].title, entries[i].url, entries[i].faviconUrl, None, i, false, false, now, now))
  }

  /** The seven `findGroup` look-ups of `getSeedBookmarks`, in program order:
      look-up `i` asks for the group `PlanGroups[i]` of the space `PlanSpaces[i]`
      and files `PlanEntries[i]` under it. */
  const PlanSpaces: seq<string> := ["Work", "Work", "Work", "Personal", "Personal", "Learning", "Learning"]
  const PlanGroups: seq<string> := WorkGroupNames + PersonalGroupNames + LearningGroupNames
  const PlanEntries: seq<seq<Entry>> := [DevelopmentEntries, DesignEntries, DocumentationEntries,
    SocialEntries, ShoppingEntries, CoursesEntries, ArticlesEntries]

  /** Every look-up of the plan finds its group. */
  ghost predicate PlannedGroupsFound(spaces: seq<Space>, groups: seq<Group>) {
    forall i :: 0 <= i < |PlanGroups| ==>
      FindGroup(spaces, groups, PlanSpaces[i], PlanGroups[i]).Some?
  }

  /** The bookmarks pushed by the first `n` look-ups of the plan. */
  ghost function PlannedBookmarks(userId: string, spaces: seq<Space>, groups: seq<Group>,
                                  rand: nat -> seq<byte>, now: Timestamp, n: nat): seq<Bookmark>
    requires n <= |PlanGroups|
  {
    if n == 0 then []
    else
      var before := PlannedBookmarks(userId, spaces, groups, rand, now, n - 1);
      PushBlock(userId, before, FindGroup(spaces, groups, PlanSpaces[n - 1], PlanGroups[n - 1]),
                PlanEntries[n - 1], rand, now)
  }

  /** `if (group) bookmarks.push(...)`: the block of `entries` is pushed when the
      look-up found its group. */
  function PushBlock(userId: string, bookmarks: seq<Bookmark>, found: Option<Group>, entries: seq<Entry>,
                     rand: nat -> seq<byte>, now: Timestamp): (r: seq<Bookmark>)
    ensures |r| == |bookmarks| + if found.Some? then |entries| else 0
  {
    match found
    case None => bookmarks
    case Some(g) => bookmarks + BookmarkBlock(userId, g, entries, rand, |bookmarks|, now)
  }

  /** The number of bookmarks the first `n` look-ups file when all succeed. */
  function PlannedCount(n: nat): nat
    requires n <= |PlanGroups|
  {
    if n == 0 then 0 else PlannedCount(n - 1) + |PlanEntries[n - 1]|
  }

  /** `getSeedBookmarks(userId, spaces, groups)` */
  method GetSeedBookmarks(userId: string, spaces: seq<Space>, groups: seq<Group>, rand: nat -> seq<byte>,
                          now: Timestamp)
    returns (bookmarks: seq<Bookmark>)
    ensures forall b :: b in bookmarks ==> exists g :: g in groups && g.id == b.groupId && g.spaceId == b.spaceId
    ensures forall b :: b in bookmarks ==>
      b.userId == userId && !b.isPinned && !b.isArchived && b.createdAt == b.updatedAt == now
    ensures forall i :: 0 <= i < |bookmarks| ==> bookmarks[i].id == IdFor(BookmarkKind, rand(i))
    ensures PlannedGroupsFound(spaces, groups) ==> |bookmarks| == 14
    ensures UniqueGroupIds(groups) ==> BookmarksDensePerGroup(bookmarks)
  {
    bookmarks := [];
    bookmarks := PushPlanned(userId, spaces, groups, rand, now, 1, bookmarks);
    bookmarks := PushPlanned(userId, spaces, groups, rand, now, 2, bookmarks);
    bookmarks := PushPlanned(userId, spaces, groups, rand, now, 3, bookmarks);
    bookmarks := PushPlanned(userId, spaces, groups, rand, now, 4, bookmarks);
    bookmarks := PushPlanned(userId, spaces, groups, rand, now, 5, bookmarks);
    bookmarks := PushPlanned(userId, spaces, groups, rand, now, 6, bookmarks);
    bookmarks := PushPlanned(userId, spaces, groups, rand, now, 7, bookmarks);
    PlannedBookmarksFields(userId, spaces, groups, rand, now, 7);
    PlannedBookmarksCount(userId, spaces, groups, rand, now, 7);
    PlannedBookmarksDense(userId, spaces, groups, rand, now, 7);
  }

  /** Step `n` of the plan: `const group = findGroup(space, name); if (group) bookmarks.push(...)`. */
  method PushPlanned(userId: string, spaces: seq<Space>, groups: seq<Group>, rand: nat -> seq<byte>, now: Timestamp,
                     n: nat, bookmarks: seq<Bookmark>)
    returns (r: seq<Bookmark>)
    requires 1 <= n <= |PlanGroups|
    requires bookmarks == PlannedBookmarks(userId, spaces, groups, rand, now, n - 1)
    ensures r == PlannedBookmarks(userId, spaces, groups, rand, now, n)
  {
    var group := FindGroup(spaces, groups, PlanSpaces[n - 1], PlanGroups[n - 1]);
    r := PushBlock(userId, bookmarks, group, PlanEntries[n - 1], rand, now);
    PlannedStep(userId, spaces, groups, rand, now, n, PlanSpaces[n - 1], PlanGroups[n - 1], PlanEntries[n - 1]);
  }

  /** Look-up `n` of the plan pushes its block after the earlier ones. */
  lemma PlannedStep(userId: string, spaces: seq<Space>, groups: seq<Group>, rand: nat -> seq<byte>,
                    now: Timestamp, n: nat, spaceName: string, groupName: string, entries: seq<Entry>)
    requires 1 <= n <= |PlanGroups|
    requires PlanSpaces[n - 1] == spaceName && PlanGroups[n - 1] == groupName && PlanEntries[n - 1] == entries
    ensures var before := PlannedBookmarks(userId, spaces, groups, rand, now, n - 1);
      PlannedBookmarks(userId, spaces, groups, rand, now, n) ==
        PushBlock(userId, before, FindGroup(spaces, groups, spaceName, groupName), entries, rand, now)
  {
  }

  lemma {:induction false} PlannedBookmarksFields(userId: string, spaces: seq<Space>, groups: seq<Group>,
                                                  rand: nat -> seq<byte>, now: Timestamp, n: nat)
    requires n <= |PlanGroups|
    ensures var bs := PlannedBookmarks(userId, spaces, groups, rand, now, n);
      && (forall b :: b in bs ==> exists g :: g in groups && g.id == b.groupId && g.spaceId == b.spaceId)
      && (forall b :: b in bs ==> b.userId == userId && !b.isPinned && !b.isArchived && b.createdAt == b.updatedAt == now)
      && (forall i :: 0 <= i < |bs| ==> bs[i].id == IdFor(BookmarkKind, rand(i)))
  {
    if n > 0 {
      PlannedBookmarksFields(userId, spaces, groups, rand, now, n - 1);
      var before := PlannedBookmarks(userId, spaces, groups, rand, now, n - 1);
      PlannedStep(userId, spaces, groups, rand, now, n, PlanSpaces[n - 1], PlanGroups[n - 1], PlanEntries[n - 1]);
      PushBlockFields(userId, groups, before, FindGroup(spaces, groups, PlanSpaces[n - 1], PlanGroups[n - 1]),
                      PlanEntries[n - 1], rand, now);
    }
  }

  /** Pushing a block under a group of `groups` keeps every bookmark filed under
      a group it agrees with, owned, live and unpinned, with the ids `rand(0)`,
      `rand(1)`, ... in push order. */
  lemma PushBlockFields(userId: string, groups: seq<Group>, before: seq<Bookmark>, found: Option<Group>,
                        entries: seq<Entry>, rand: nat -> seq<byte>, now: Timestamp)
    requires found.Some? ==> found.value in groups
    requires forall b :: b in before ==> exists g :: g in groups && g.id == b.groupId && g.spaceId == b.spaceId
    requires forall b :: b in before ==> b.userId == userId && !b.isPinned && !b.isArchived && b.createdAt == b.updatedAt == now
    requires forall i :: 0 <= i < |before| ==> before[i].id == IdFor(BookmarkKind, rand(i))
    ensures var bs := PushBlock(userId, before, found, entries, rand, now);
      && (forall b :: b in bs ==> exists g :: g in groups && g.id == b.groupId && g.spaceId == b.spaceId)
      && (forall b :: b in bs ==> b.userId == userId && !b.isPinned && !b.isArchived && b.createdAt == b.updatedAt == now)
      && (forall i :: 0 <= i < |bs| ==> bs[i].id == IdFor(BookmarkKind, rand(i)))
  {
    if found.Some? {
      var g := found.value;
      var block := BookmarkBlock(userId, g, entries, rand, |before|, now);
      var bs := before + block;
      forall b: Bookmark | b in bs ensures exists h :: h in groups && h.id == b.groupId && h.spaceId == b.spaceId {
        if b in block { assert g in groups; }
      }
      forall i | 0 <= i < |bs| ensures bs[i].id == IdFor(BookmarkKind, rand(i)) {
        if i >= |before| { assert bs[i] == block[i - |before|]; }
      }
    }
  }

  lemma {:induction false} PlannedBookmarksCount(userId: string, spaces: seq<Space>, groups: seq<Group>,
                                                 rand: nat -> seq<byte>, now: Timestamp, n: nat)
    requires n <= |PlanGroups|
    ensures PlannedGroupsFound(spaces, groups) ==>
      |PlannedBookmarks(userId, spaces, groups, rand, now, n)| == PlannedCount(n)
  {
    if n > 0 && PlannedGroupsFound(spaces, groups) {
      PlannedBookmarksCount(userId, spaces, groups, rand, now, n - 1);
      assert FindGroup(spaces, groups, PlanSpaces[n - 1], PlanGroups[n - 1]).Some?;
      PlannedCountStep(userId, spaces, groups, rand, now, n);
    }
  }

  /** A look-up that finds its group pushes all of its entries. */
  lemma PlannedCountStep(userId: string, spaces: seq<Space>, groups: seq<Group>,
                         rand: nat -> seq<byte>, now: Timestamp, n: nat)
    requires 1 <= n <= |PlanGroups|
    requires FindGroup(spaces, groups, PlanSpaces[n - 1], PlanGroups[n - 1]).Some?
    ensures |PlannedBookmarks(userId, spaces, groups, rand, now, n)|
         == |PlannedBookmarks(userId, spaces, groups, rand, now, n - 1)| + |PlanEntries[n - 1]|
  {
  }

  /** Every bookmark filed by the first `n` look-ups belongs to a group that one
      of them found. */
  ghost predicate FiledByPlan(spaces: seq<Space>, groups: seq<Group>, bs: seq<Bookmark>, n: nat)
    requires n <= |PlanGroups|
  {
    forall b :: b in bs ==> exists i :: 0 <= i < n && FiledByStep(spaces, groups, b, i)
  }

  /** Look-up `i` of the plan finds the group `b` is filed under. */
  ghost predicate FiledByStep(spaces: seq<Space>, groups: seq<Group>, b: Bookmark, i: nat)
    requires i < |PlanGroups|
  {
    var found := FindGroup(spaces, groups, PlanSpaces[i], PlanGroups[i]);
    found.Some? && found.value.id == b.groupId
  }

  lemma {:induction false} PlannedBookmarksDense(userId: string, spaces: seq<Space>, groups: seq<Group>,
                                                 rand: nat -> seq<byte>, now: Timestamp, n: nat)
    requires n <= |PlanGroups|
    ensures UniqueGroupIds(groups) ==>
      && BookmarksDensePerGroup(PlannedBookmarks(userId, spaces, groups, rand, now, n))
      && FiledByPlan(spaces, groups, PlannedBookmarks(userId, spaces, groups, rand, now, n), n)
  {
    if n == 0 {
      forall q ensures DenselyOrdered(Filter([], InGroup(q)), BookmarkOrder) { }
    } else if UniqueGroupIds(groups) {
      PlannedBookmarksDense(userId, spaces, groups, rand, now, n - 1);
      PlannedDenseStep(userId, spaces, groups, rand, now, n);
    }
  }

  lemma PlannedDenseStep(userId: string, spaces: seq<Space>, groups: seq<Group>,
                         rand: nat -> seq<byte>, now: Timestamp, n: nat)
    requires 1 <= n <= |PlanGroups|
    requires UniqueGroupIds(groups)
    requires BookmarksDensePerGroup(PlannedBookmarks(userId, spaces, groups, rand, now, n - 1))
    requires FiledByPlan(spaces, groups, PlannedBookmarks(userId, spaces, groups, rand, now, n - 1), n - 1)
    ensures BookmarksDensePerGroup(PlannedBookmarks(userId, spaces, groups, rand, now, n))
    ensures FiledByPlan(spaces, groups, PlannedBookmarks(userId, spaces, groups, rand, now, n), n)
  {
    var before := PlannedBookmarks(userId, spaces, groups, rand, now, n - 1);
    var found := FindGroup(spaces, groups, PlanSpaces[n - 1], PlanGroups[n - 1]);
    if found.None? {
      assert PlannedBookmarks(userId, spaces, groups, rand, now, n) == before;
      forall b: Bookmark | b in before ensures exists i :: 0 <= i < n && FiledByStep(spaces, groups, b, i) {
        var i :| 0 <= i < n - 1 && FiledByStep(spaces, groups, b, i);
      }
    } else {
      var g := found.value;
      var block := BookmarkBlock(userId, g, PlanEntries[n - 1], rand, |before|, now);
      assert PlannedBookmarks(userId, spaces, groups, rand, now, n) == before + block;
      EarlierLookUpsMissGroup(spaces, groups, before, n);
      AppendBookmarkBlock(before, block, g.id);
      forall b: Bookmark | b in before + block ensures exists i :: 0 <= i < n && FiledByStep(spaces, groups, b, i) {
        if b in block {
          assert FiledByStep(spaces, groups, b, n - 1);
        } else {
          var i :| 0 <= i < n - 1 && FiledByStep(spaces, groups, b, i);
        }
      }
    }
  }

  /** No bookmark filed by earlier look-ups sits in the group look-up `n` finds. */
  lemma EarlierLookUpsMissGroup(spaces: seq<Space>, groups: seq<Group>, before: seq<Bookmark>, n: nat)
    requires 1 <= n <= |PlanGroups|
    requires UniqueGroupIds(groups)
    requires FiledByPlan(spaces, groups, before, n - 1)
    requires FindGroup(spaces, groups, PlanSpaces[n - 1], PlanGroups[n - 1]).Some?
    ensures forall b :: b in before ==>
      b.groupId != FindGroup(spaces, groups, PlanSpaces[n - 1], PlanGroups[n - 1]).value.id
  {
    var g := FindGroup(spaces, groups, PlanSpaces[n - 1], PlanGroups[n - 1]).value;
    forall b | b in before ensures b.groupId != g.id {
      var i :| 0 <= i < n - 1 && FiledByStep(spaces, groups, b, i);
      LookUpsApart(spaces, groups, i, n - 1);
    }
  }

  /** Two different look-ups of the plan that both succeed find different groups. */
  lemma LookUpsApart(spaces: seq<Space>, groups: seq<Group>, i: nat, j: nat)
    requires i < j < |PlanGroups|
    requires UniqueGroupIds(groups)
    requires FindGroup(spaces, groups, PlanSpaces[i], PlanGroups[i]).Some?
    requires FindGroup(spaces, groups, PlanSpaces[j], PlanGroups[j]).Some?
    ensures FindGroup(spaces, groups, PlanSpaces[i], PlanGroups[i]).value.id
         != FindGroup(spaces, groups, PlanSpaces[j], PlanGroups[j]).value.id
  {
    var h := FindGroup(spaces, groups, PlanSpaces[i], PlanGroups[i]).value;
    var g := FindGroup(spaces, groups, PlanSpaces[j], PlanGroups[j]).value;
    PlanNamesDistinct(i, j);
    if h.id == g.id { SameGroupId(groups, h, g); }
  }

  /** The seven look-ups ask for seven different group names. */
  lemma PlanNamesDistinct(i: nat, j: nat)
    requires i < j < |PlanGroups|
    ensures PlanGroups[i] != PlanGroups[j]
  {
    // Their first three letters already differ.
    assert PlanGroups[i][0] != PlanGroups[j][0] || PlanGroups[i][1] != PlanGroups[j][1]
        || PlanGroups[i][2] != PlanGroups[j][2];
  }

  /** With all three sample spaces present, the groups `getSeedGroups` pushed
      answer every look-up of `getSeedBookmarks`. */
  lemma SeedGroupsAnswerPlan(spaces: seq<Space>, groups: seq<Group>)
    requires SpaceNamed(spaces, "Work").Some? && SpaceNamed(spaces, "Personal").Some?
    requires SpaceNamed(spaces, "Learning").Some?
    requires SeedGroupsFound(spaces, groups)
    ensures PlannedGroupsFound(spaces, groups)
  {
    forall i | 0 <= i < |PlanGroups| ensures FindGroup(spaces, groups, PlanSpaces[i], PlanGroups[i]).Some? {
      PlanEntryFound(spaces, groups, i);
    }
  }

  /** Look-up `i` of the plan asks for a name of the block pushed under its space. */
  lemma PlanEntryFound(spaces: seq<Space>, groups: seq<Group>, i: nat)
    requires i < |PlanGroups|
    requires SpaceNamed(spaces, "Work").Some? && SpaceNamed(spaces, "Personal").Some?
    requires SpaceNamed(spaces, "Learning").Some?
    requires SeedGroupsFound(spaces, groups)
    ensures FindGroup(spaces, groups, PlanSpaces[i], PlanGroups[i]).Some?
  {
    if i < 3 {
      WorkLookUps(spaces, groups, i);
    } else if i < 5 {
      PersonalLookUps(spaces, groups, i);
    } else {
      LearningLookUps(spaces, groups, i);
    }
  }

  lemma WorkLookUps(spaces: seq<Space>, groups: seq<Group>, i: nat)
    requires i < 3
    requires forall n :: n in WorkGroupNames ==> FindGroup(spaces, groups, "Work", n).Some?
    ensures FindGroup(spaces, groups, PlanSpaces[i], PlanGroups[i]).Some?
  {
    match i
    case 0 => PlanLookUp(spaces, groups, 0, "Work", WorkGroupNames, 0);
    case 1 => PlanLookUp(spaces, groups, 1, "Work", WorkGroupNames, 1);
    case 2 => PlanLookUp(spaces, groups, 2, "Work", WorkGroupNames, 2);
  }

  lemma PersonalLookUps(spaces: seq<Space>, groups: seq<Group>, i: nat)
    requires 3 <= i < 5
    requires forall n :: n in PersonalGroupNames ==> FindGroup(spaces, groups, "Personal", n).Some?
    ensures FindGroup(spaces, groups, PlanSpaces[i], PlanGroups[i]).Some?
  {
    match i
    case 3 => PlanLookUp(spaces, groups, 3, "Personal", PersonalGroupNames, 0);
    case 4 => PlanLookUp(spaces, groups, 4, "Personal", PersonalGroupNames, 1);
  }

  lemma LearningLookUps(spaces: seq<Space>, groups: seq<Group>, i: nat)
    requires 5 <= i < 7
    requires forall n :: n in LearningGroupNames ==> FindGroup(spaces, groups, "Learning", n).Some?
    ensures FindGroup(spaces, groups, PlanSpaces[i], PlanGroups[i]).Some?
  {
    match i
    case 5 => PlanLookUp(spaces, groups, 5, "Learning", LearningGroupNames, 0);
    case 6 => PlanLookUp(spaces, groups, 6, "Learning", LearningGroupNames, 1);
  }

  /** Look-up `i` asks for name `j` of the block pushed under `spaceName`. */
  lemma PlanLookUp(spaces: seq<Space>, groups: seq<Group>, i: nat, spaceName: string, names: seq<string>, j: nat)
    requires i < |PlanGroups| && j < |names|
    requires PlanSpaces[i] == spaceName && PlanGroups[i] == names[j]
    requires forall n :: n in names ==> FindGroup(spaces, groups, spaceName, n).Some?
    ensures FindGroup(spaces, groups, PlanSpaces[i], PlanGroups[i]).Some?
  {
    assert names[j] in names;
  }

  /** The three collections a first login starts with. */
  datatype SeedData = SeedData(spaces: seq<Space>, groups: seq<Group>, bookmarks: seq<Bookmark>)

  /** `createSeedData(userId)`; `rand(k)` fills the `k`-th id of the whole run. */
  method CreateSeedData(userId: string, rand: nat -> seq<byte>, now: Timestamp) returns (data: SeedData)
    ensures |data.spaces| == 3 && |data.groups| == 7 && |data.bookmarks| == 14
    ensures DenselyOrdered(data.spaces, SpaceOrder)
    ensures GroupsReferToSpaces(data.spaces, data.groups)
    ensures BookmarksReferToGroups(data.groups, data.bookmarks)
    ensures UniqueGroupIds(data.groups) ==> BookmarkSpacesAgree(data.groups, data.bookmarks)
    ensures UniqueSpaceIds(data.spaces) ==> GroupsDensePerSpace(data.groups)
    ensures UniqueGroupIds(data.groups) ==> BookmarksDensePerGroup(data.bookmarks)
    ensures forall s :: s in data.spaces ==> s.userId == userId && !s.isArchived
    ensures forall g :: g in data.groups ==> g.userId == userId && !g.isArchived
    ensures forall b :: b in data.bookmarks ==> b.userId == userId && !b.isArchived && !b.isPinned
  {
    var spaces := SeedSpaces(userId, rand, now);
    var groups := GetSeedGroups(userId, spaces, (k: nat) => rand(k + 3), now);
    var bookmarks := GetSeedBookmarks(userId, spaces, groups, (k: nat) => rand(k + 10), now);
    assert SpaceNamed(spaces, "Work").Some? by { assert !(spaces[0].name != "Work"); }
    assert SpaceNamed(spaces, "Personal").Some? by { assert !(spaces[1].name != "Personal"); }
    assert SpaceNamed(spaces, "Learning").Some? by { assert !(spaces[2].name != "Learning"); }
    SeedGroupsAnswerPlan(spaces, groups);
    forall b | b in bookmarks ensures exists g :: g in groups && g.id == b.groupId {
      var g :| g in groups && g.id == b.groupId && g.spaceId == b.spaceId;
    }
    if UniqueGroupIds(groups) {
      AgreementFromHomes(groups, bookmarks);
    }
    data := SeedData(spaces, groups, bookmarks);
  }
}
