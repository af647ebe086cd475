/** DELETE /api/auth/delete-account (app/api/auth/delete-account/route.tsx): collects the
    stored artifact URLs of the signed-in user's animations, hands them to the storage
    cleanup when there are any, then deletes the user, whose animations go with it. */
module DeleteAccount {
  import opened Common
  import opened Store

  /** The two columns the route selects from each animation. */
  datatype ArtifactRow = ArtifactRow(videoUrl: Option<string>, thumbnailUrl: Option<string>)

  /** The URLs one row contributes: its video, then its thumbnail, each only when truthy. */
  function RowUrls(r: ArtifactRow): (urls: seq<string>)
    ensures |urls| <= 2
    ensures |urls| == 2 <==> Truthy(r.videoUrl) && Truthy(r.thumbnailUrl)
    ensures forall k :: 0 <= k < |urls| ==> urls[k] != ""
    ensures Truthy(r.videoUrl) ==> |urls| >= 1 && urls[0] == r.videoUrl.value
  {
    (if Truthy(r.videoUrl) then [r.videoUrl.value] else []) +
    (if Truthy(r.thumbnailUrl) then [r.thumbnailUrl.value] else [])
  }

  /** The list the loop builds, row after row. */
  function ArtifactUrls(rows: seq<ArtifactRow>): seq<string>
    decreases |rows|
  {
    if rows == [] then [] else ArtifactUrls(rows[..|rows| - 1]) + RowUrls(rows[|rows| - 1])
  }

  /** `forEach` with two conditional pushes. */
  method CollectArtifactUrls(rows: seq<ArtifactRow>) returns (urls: seq<string>)
    ensures urls == ArtifactUrls(rows)
  {
    urls := [];
    var i := 0;
    while i < |rows|
      invariant 0 <= i <= |rows|
      invariant urls == ArtifactUrls(rows[..i])
    {
      var row := rows[i];
      assert rows[..i + 1][..i] == rows[..i];
      if Truthy(row.videoUrl) {
        urls := urls + [row.videoUrl.value];
      }
      if Truthy(row.thumbnailUrl) {
        urls := urls + [row.thumbnailUrl.value];
      }
      i := i + 1;
    }
    assert rows[..i] == rows;
  }

  /** The list keeps the order of the rows: the URLs of an earlier row come first. */
  lemma {:induction false} ArtifactUrlsAppend(a: seq<ArtifactRow>, b: seq<ArtifactRow>)
    ensures ArtifactUrls(a + b) == ArtifactUrls(a) + ArtifactUrls(b)
    decreases |b|
  {
    if b == [] {
      assert a + b == a;
    } else {
      var n := |b|;
      assert (a + b)[..|a + b| - 1] == a + b[..n - 1];
      assert (a + b)[|a + b| - 1] == b[n - 1];
      ArtifactUrlsAppend(a, b[..n - 1]);
    }
  }

  /** The list never holds an empty (or missing) URL. */
  lemma {:induction false} ArtifactUrlsNonEmpty(rows: seq<ArtifactRow>)
    ensures forall k :: 0 <= k < |ArtifactUrls(rows)| ==> ArtifactUrls(rows)[k] != ""
    decreases |rows|
  {
    if rows != [] {
      ArtifactUrlsNonEmpty(rows[..|rows| - 1]);
    }
  }

  predicate BothUrls(r: ArtifactRow)
  {
    Truthy(r.videoUrl) && Truthy(r.thumbnailUrl)
  }

  /** At most two URLs per row, and exactly two per row when every row has both. */
  lemma {:induction false} ArtifactUrlsLength(rows: seq<ArtifactRow>)
    ensures |ArtifactUrls(rows)| <= 2 * |rows|
    ensures |ArtifactUrls(rows)| == 2 * |rows| <==> forall i :: 0 <= i < |rows| ==> BothUrls(rows[i])
    decreases |rows|
  {
    if rows != [] {
      var init := rows[..|rows| - 1];
      ArtifactUrlsLength(init);
      if forall i :: 0 <= i < |rows| ==> BothUrls(rows[i]) {
        assert forall i :: 0 <= i < |init| ==> BothUrls(init[i]) by {
          forall i | 0 <= i < |init| ensures BothUrls(init[i]) {
            assert init[i] == rows[i];
          }
        }
      } else {
        var j :| 0 <= j < |rows| && !BothUrls(rows[j]);
        if j < |rows| - 1 {
          assert init[j] == rows[j];
        }
      }
    }
  }

  /** Every truthy URL of a row is in the list. */
  lemma {:induction false} ArtifactUrlsComplete(rows: seq<ArtifactRow>, i: int)
    requires 0 <= i < |rows|
    ensures Truthy(rows[i].videoUrl) ==> rows[i].videoUrl.value in ArtifactUrls(rows)
    ensures Truthy(rows[i].thumbnailUrl) ==> rows[i].thumbnailUrl.value in ArtifactUrls(rows)
    decreases |rows|
  {
    if i < |rows| - 1 {
      ArtifactUrlsComplete(rows[..|rows| - 1], i);
    }
  }

  /** What `findMany` returns, given the order the store lists the records in: each of the
      user's records once, and no other. */
  predicate ListsOwned(animations: map<string, Animation>, userId: string, order: seq<string>)
  {
    && (forall i :: 0 <= i < |order| ==> order[i] in animations && animations[order[i]].userId == userId)
    && (forall id :: id in animations && animations[id].userId == userId ==> id in order)
    && (forall i, j :: 0 <= i < j < |order| ==> order[i] != order[j])
  }

  function OwnedRows(animations: map<string, Animation>, order: seq<string>): (rows: seq<ArtifactRow>)
    requires forall i :: 0 <= i < |order| ==> order[i] in animations
    ensures |rows| == |order|
    ensures forall i :: 0 <= i < |order| ==>
              rows[i] == ArtifactRow(animations[order[i]].videoUrl, animations[order[i]].thumbnailUrl)
  {
    seq(|order|, i requires 0 <= i < |order| =>
      ArtifactRow(animations[order[i]].videoUrl, animations[order[i]].thumbnailUrl))
  }

  /** The users after the delete. */
  function WithoutUser(users: map<string, User>, userId: string): (r: map<string, User>)
    ensures forall e :: e in r <==> e in users && users[e].id != userId
    ensures forall e :: e in r ==> r[e] == users[e]
  {
    map e | e in users && users[e].id != userId :: users[e]
  }

  /** The animations after the cascade. */
  function WithoutOwnedBy(animations: map<string, Animation>, userId: string): (r: map<string, Animation>)
    ensures forall id :: id in r <==> id in animations && animations[id].userId != userId
    ensures forall id :: id in r ==> r[id] == animations[id]
  {
    map id | id in animations && animations[id].userId != userId :: animations[id]
  }

  /** The cleanup call, made only for a non-empty list. */
  function Cleanup(urls: seq<string>): (effects: seq<Effect>)
    ensures urls == [] <==> effects == []
  {
    if |urls| > 0 then [ArtifactsDeleted(urls)] else []
  }

  method Delete(db: Database, session: Option<string>, order: seq<string>) returns (reply: Reply)
    requires db.Valid()
    requires Truthy(session) ==> ListsOwned(db.animations, session.value, order)
    modifies db
    ensures db.Valid()
    ensures !Truthy(session) ==>
              reply == Reply(401, false, "Unauthorized!!") &&
              db.animations == old(db.animations) && db.users == old(db.users) && db.log == old(db.log)
    ensures Truthy(session) ==>
              var uid := session.value;
              var cleanup := Cleanup(ArtifactUrls(OwnedRows(old(db.animations), order)));
              if UserIdKnown(old(db.users), uid) then
                // cleanup before the user goes, and the user's animations go with the user
                && reply == Reply(200, true, "Account deleted successfully")
                && db.users == WithoutUser(old(db.users), uid)
                && db.animations == WithoutOwnedBy(old(db.animations), uid)
                && db.log == old(db.log) + cleanup + [UserDeleted(uid)]
              else
                // the delete throws once the cleanup is done
                && reply == Reply(500, false, "Internal Server Error while deleting account!!")
                && db.users == old(db.users) && db.animations == old(db.animations)
                && db.log == old(db.log) + cleanup
  {
    if !Truthy(session) {
      reply := Reply(401, false, "Unauthorized!!");
      return;
    }
    var uid := session.value;
    var rows := OwnedRows(db.animations, order);
    var urls := CollectArtifactUrls(rows);
    if |urls| > 0 {
      db.log := db.log + [ArtifactsDeleted(urls)];
    }
    if !UserIdKnown(db.users, uid) {
      reply := Reply(500, false, "Internal Server Error while deleting account!!");
      return;
    }
    db.users := WithoutUser(db.users, uid);
    db.animations := WithoutOwnedBy(db.animations, uid);
    db.log := db.log + [UserDeleted(uid)];
    reply := Reply(200, true, "Account deleted successfully");
  }
}
