/** The key/value database the local generation persists to: one array per
    user and entity kind. A read answers the stored array, or the empty array
    when nothing is stored under the key; a write is an awaited call that may
    be rejected, in which case nothing is stored. */
module KeyValueStore {
  import opened Common
  import opened Entities

  /** `Promise.all` over calls that each settle on their own: it passes when
      every call passes and otherwise rejects with a failure of one of them
      (the first in list order). */
  function All(outcomes: seq<Outcome>): (r: Outcome)
    ensures r.Pass? <==> forall i :: 0 <= i < |outcomes| ==> outcomes[i].Pass?
    ensures r.Fail? ==> r in outcomes
    ensures r.Fail? ==> exists i :: 0 <= i < |outcomes| && outcomes[i] == r
                                    && forall j :: 0 <= j < i ==> outcomes[j].Pass?
  {
    if outcomes == [] then Pass
    else if outcomes[0].Fail? then outcomes[0]
    else
      var r := All(outcomes[1..]);
      assert r.Fail? ==> exists i :: 0 <= i < |outcomes| && outcomes[i] == r
                                    && forall j :: 0 <= j < i ==> outcomes[j].Pass? by {
        if r.Fail? {
          var i :| 0 <= i < |outcomes[1..]| && outcomes[1..][i] == r && forall j :: 0 <= j < i ==> outcomes[1..][j].Pass?;
          assert outcomes[i + 1] == r;
          assert forall j :: 0 <= j < i + 1 ==> outcomes[j].Pass? by {
            forall j | 0 <= j < i + 1 ensures outcomes[j].Pass? {
              if j > 0 { assert outcomes[j] == outcomes[1..][j - 1]; }
            }
          }
        }
      }
      r
  }

  /** The `bookmarks-store` object store, keyed per user. */
  class Database {
    var spaces: map<string, seq<Space>>
    var groups: map<string, seq<Group>>
    var bookmarks: map<string, seq<Bookmark>>

    constructor ()
      ensures spaces == map[] && groups == map[] && bookmarks == map[]
    {
      spaces, groups, bookmarks := map[], map[], map[];
    }

    /** `getSpaces(userId)`: `stored ?? []` */
    function GetSpaces(userId: string): seq<Space>
      reads this
    {
      if userId in spaces then spaces[userId] else []
    }

    function GetGroups(userId: string): seq<Group>
      reads this
    {
      if userId in groups then groups[userId] else []
    }

    function GetBookmarks(userId: string): seq<Bookmark>
      reads this
    {
      if userId in bookmarks then bookmarks[userId] else []
    }

    /** `setSpaces(userId, xs)`, settling as `write`: a later read answers `xs`
        when the write passed, and what it answered before when it failed. */
    method SetSpaces(userId: string, xs: seq<Space>, write: Outcome) returns (r: Outcome)
      modifies this
      ensures r == write
      ensures write.Pass? ==> spaces == old(spaces)[userId := xs] && GetSpaces(userId) == xs
      ensures write.Fail? ==> spaces == old(spaces)
      ensures groups == old(groups) && bookmarks == old(bookmarks)
    {
      if write.Pass? {
        spaces := spaces[userId := xs];
      }
      r := write;
    }

    method SetGroups(userId: string, xs: seq<Group>, write: Outcome) returns (r: Outcome)
      modifies this
      ensures r == write
      ensures write.Pass? ==> groups == old(groups)[userId := xs] && GetGroups(userId) == xs
      ensures write.Fail? ==> groups == old(groups)
      ensures spaces == old(spaces) && bookmarks == old(bookmarks)
    {
      if write.Pass? {
        groups := groups[userId := xs];
      }
      r := write;
    }

    method SetBookmarks(userId: string, xs: seq<Bookmark>, write: Outcome) returns (r: Outcome)
      modifies this
      ensures r == write
      ensures write.Pass? ==> bookmarks == old(bookmarks)[userId := xs] && GetBookmarks(userId) == xs
      ensures write.Fail? ==> bookmarks == old(bookmarks)
      ensures spaces == old(spaces) && groups == old(groups)
    {
      if write.Pass? {
        bookmarks := bookmarks[userId := xs];
      }
      r := write;
    }
  }
}
