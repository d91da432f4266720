/** The backend's user records (backend/app.py) and the pure facts about
    them: lookup by email, the store invariant, and the badge-awarding
    loop of the task-completion handler. */
module Users {
  import opened Common
  import opened Catalog

  /** One entry of users.json. The password is kept in clear, as the
      source keeps it. */
  datatype User = User(
    email: string,
    password: string,
    age: int,
    username: string,
    city: string,
    bloomPoints: int,
    tasksCompleted: int,
    badges: seq<string>,
    rewards: seq<string>,
    community: string,
    profileImage: string)

  /** The community every new account joins. */
  const DefaultCommunity := "Team Green"

  /** Some record carries this email. */
  predicate Registered(users: seq<User>, email: string) {
    exists u :: u in users && u.email == email
  }

  /** `next((u for u in users if u['email'] == email), None)`, as a position:
      the first record with that email, or nothing. */
  function FindUser(users: seq<User>, email: string): (r: Option<nat>)
    ensures r.Some? ==> r.value < |users| && users[r.value].email == email
    ensures r.Some? ==> forall j :: 0 <= j < r.value ==> users[j].email != email
    ensures r.None? <==> !Registered(users, email)
  {
    if users == [] then None
    else if users[0].email == email then Some(0)
    else
      var rest := FindUser(users[1..], email);
      assert forall u :: u in users ==> u == users[0] || u in users[1..];
      if rest.None? then None else Some(rest.value + 1)
  }

  /** The login lookup: the first record whose email and password both match. */
  function FindCredentials(users: seq<User>, email: string, password: string): (r: Option<nat>)
    ensures r.Some? ==> r.value < |users| && users[r.value].email == email && users[r.value].password == password
    ensures r.Some? ==> forall j :: 0 <= j < r.value ==> users[j].email != email || users[j].password != password
    ensures r.None? <==> forall u :: u in users ==> u.email != email || u.password != password
  {
    if users == [] then None
    else if users[0].email == email && users[0].password == password then Some(0)
    else
      var rest := FindCredentials(users[1..], email, password);
      assert forall u :: u in users ==> u == users[0] || u in users[1..];
      if rest.None? then None else Some(rest.value + 1)
  }

  /** The presence check login and signup share: all four fields given and
      non-empty. */
  predicate CredentialsGiven(email: string, password: string, age: Option<int>, username: string) {
    email != "" && password != "" && age.Some? && username != ""
  }

  /** No two records share an email. */
  predicate EmailsUnique(users: seq<User>) {
    forall i, j :: 0 <= i < j < |users| ==> users[i].email != users[j].email
  }

  /** Every badge whose threshold is at or below `points` is in `badges`. */
  predicate HoldsReached(badges: seq<string>, points: int) {
    forall b :: b in Badges && b.threshold <= points ==> b.name in badges
  }

  /** A record's badge list never repeats a name and is complete for its points. */
  predicate BadgesConsistent(u: User) {
    NoDuplicates(u.badges) && HoldsReached(u.badges, u.bloomPoints)
  }

  /** The store invariant that every handler keeps. */
  predicate ValidUsers(users: seq<User>) {
    EmailsUnique(users) && forall u :: u in users ==> BadgesConsistent(u)
  }

  /** With unique emails, the lookup finds exactly the record that has the email. */
  lemma FindUserUnique(users: seq<User>, email: string, i: nat)
    requires EmailsUnique(users)
    requires i < |users| && users[i].email == email
    ensures FindUser(users, email) == Some(i)
  {
  }

  /** The record signup creates. */
  function NewUser(email: string, password: string, age: int, username: string): (u: User)
    ensures u.bloomPoints == 0 && u.tasksCompleted == 0 && u.badges == [] && u.rewards == []
    ensures u.city == "" && u.profileImage == "" && u.community == DefaultCommunity
    ensures BadgesConsistent(u)
  {
    BadgeLadder();
    User(email, password, age, username, "", 0, 0, [], [], DefaultCommunity, "")
  }

  // ----- Badge awarding: `for badge in BADGES: if points >= badge['points']
  // and badge['name'] not in badges: badges.append(badge['name'])` -----

  /** The badge list after the awarding loop has visited `bs`, one badge at a time. */
  function AwardFrom(held: seq<string>, points: int, bs: seq<Badge>): seq<string>
    decreases |bs|
  {
    if bs == [] then held
    else
      var next := if points >= bs[0].threshold && bs[0].name !in held then held + [bs[0].name] else held;
      AwardFrom(next, points, bs[1..])
  }

  /** The names of `bs`, in order, that are reached by `points` and not yet held. */
  function Newly(held: seq<string>, points: int, bs: seq<Badge>): seq<string>
    decreases |bs|
  {
    if bs == [] then []
    else (if points >= bs[0].threshold && bs[0].name !in held then [bs[0].name] else []) + Newly(held, points, bs[1..])
  }

  /** A name is newly awarded exactly when it is not yet held and names a
      badge of `bs` that the points reach. */
  lemma {:induction false} NewlyMembers(held: seq<string>, points: int, bs: seq<Badge>)
    ensures forall x :: x in Newly(held, points, bs) <==>
                          x !in held && exists b :: b in bs && b.name == x && b.threshold <= points
    decreases |bs|
  {
    if bs != [] {
      NewlyMembers(held, points, bs[1..]);
      assert forall b :: b in bs ==> b == bs[0] || b in bs[1..];
    }
  }

  /** The awarding loop of the task-completion handler, over BADGES. */
  method AwardBadges(held: seq<string>, points: int) returns (badges: seq<string>)
    ensures badges == AwardFrom(held, points, Badges)
    ensures held <= badges && HoldsReached(badges, points)
    ensures NoDuplicates(held) ==> NoDuplicates(badges)
  {
    badges := held;
    for k := 0 to |Badges|
      invariant AwardFrom(badges, points, Badges[k..]) == AwardFrom(held, points, Badges)
    {
      assert Badges[k..][1..] == Badges[k + 1..];
      var b := Badges[k];
      if points >= b.threshold && b.name !in badges {
        badges := badges + [b.name];
      }
    }
    assert Badges[|Badges|..] == [];
    AwardLadder(held, points);
  }

  /** The held list is always a prefix of the awarded list: badges are never
      revoked or reordered. */
  lemma {:induction false} AwardGrows(held: seq<string>, points: int, bs: seq<Badge>)
    ensures held <= AwardFrom(held, points, bs)
    decreases |bs|
  {
    if bs != [] {
      var next := if points >= bs[0].threshold && bs[0].name !in held then held + [bs[0].name] else held;
      AwardGrows(next, points, bs[1..]);
    }
  }

  /** A badge name is appended only when absent, so no name appears twice. */
  lemma {:induction false} AwardNoDuplicates(held: seq<string>, points: int, bs: seq<Badge>)
    requires NoDuplicates(held)
    ensures NoDuplicates(AwardFrom(held, points, bs))
    decreases |bs|
  {
    if bs != [] {
      var next := if points >= bs[0].threshold && bs[0].name !in held then held + [bs[0].name] else held;
      AwardNoDuplicates(next, points, bs[1..]);
    }
  }

  /** Every badge of `bs` that `points` reaches is held afterwards. */
  lemma {:induction false} AwardReached(held: seq<string>, points: int, bs: seq<Badge>)
    ensures forall b :: b in bs && b.threshold <= points ==> b.name in AwardFrom(held, points, bs)
    decreases |bs|
  {
    if bs != [] {
      var next := if points >= bs[0].threshold && bs[0].name !in held then held + [bs[0].name] else held;
      AwardReached(next, points, bs[1..]);
      AwardGrows(next, points, bs[1..]);
      assert forall b :: b in bs ==> b == bs[0] || b in bs[1..];
      if bs[0].threshold <= points {
        assert bs[0].name in next;
      }
    }
  }

  /** With every reached badge of `bs` already held, nothing is newly
      awarded. */
  lemma {:induction false} NothingNew(held: seq<string>, points: int, bs: seq<Badge>)
    requires forall b :: b in bs && b.threshold <= points ==> b.name in held
    ensures Newly(held, points, bs) == []
    decreases |bs|
  {
    if bs != [] {
      assert bs[0] in bs;
      assert forall b :: b in bs[1..] ==> b in bs;
      NothingNew(held, points, bs[1..]);
    }
  }

  /** Appending a name that no badge of `bs` carries does not change which
      names of `bs` are still to be awarded. */
  lemma {:induction false} NewlyIgnoresForeign(held: seq<string>, n: string, points: int, bs: seq<Badge>)
    requires forall b :: b in bs ==> b.name != n
    ensures Newly(held + [n], points, bs) == Newly(held, points, bs)
    decreases |bs|
  {
    if bs != [] {
      NewlyIgnoresForeign(held, n, points, bs[1..]);
    }
  }

  /** With distinct names, the loop appends exactly the reached, not-yet-held
      names, in the order of `bs`. */
  lemma {:induction false} AwardAppendsNewly(held: seq<string>, points: int, bs: seq<Badge>)
    requires DistinctNames(bs)
    ensures AwardFrom(held, points, bs) == held + Newly(held, points, bs)
    decreases |bs|
  {
    if bs != [] {
      var n := bs[0].name;
      var tail := bs[1..];
      DistinctTail(bs);
      if points >= bs[0].threshold && n !in held {
        AwardAppendsNewly(held + [n], points, tail);
        NewlyIgnoresForeign(held, n, points, tail);
        assert held + [n] + Newly(held, points, tail) == held + ([n] + Newly(held, points, tail));
      } else {
        AwardAppendsNewly(held, points, tail);
      }
    }
  }

  /** Past the first badge of a list with distinct names, the names stay
      distinct and none of them is the first badge's. */
  lemma DistinctTail(bs: seq<Badge>)
    requires bs != [] && DistinctNames(bs)
    ensures DistinctNames(bs[1..])
    ensures forall b :: b in bs[1..] ==> b.name != bs[0].name
  {
    var tail := bs[1..];
    forall b | b in tail ensures b.name != bs[0].name {
      var j :| 0 <= j < |tail| && tail[j] == b;
      assert bs[j + 1] == b;
    }
  }

  /** What one pass of the awarding loop over BADGES guarantees. */
  lemma AwardLadder(held: seq<string>, points: int)
    ensures held <= AwardFrom(held, points, Badges)
    ensures AwardFrom(held, points, Badges) == held + Newly(held, points, Badges)
    ensures HoldsReached(AwardFrom(held, points, Badges), points)
    ensures NoDuplicates(held) ==> NoDuplicates(AwardFrom(held, points, Badges))
  {
    BadgeLadder();
    AwardGrows(held, points, Badges);
    AwardAppendsNewly(held, points, Badges);
    AwardReached(held, points, Badges);
    if NoDuplicates(held) {
      AwardNoDuplicates(held, points, Badges);
    }
  }

  // ----- The per-record effect of each successful handler -----

  /** complete_task: the points are added, the task is counted, earlier
      badges stay in place and every badge the new total reaches is held;
      nothing else changes. */
  function Credited(u: User, points: int): (c: User)
    ensures c.bloomPoints == u.bloomPoints + points
    ensures c.tasksCompleted == u.tasksCompleted + 1
    ensures u.badges <= c.badges && HoldsReached(c.badges, c.bloomPoints)
    ensures c.(bloomPoints := u.bloomPoints, tasksCompleted := u.tasksCompleted, badges := u.badges) == u
  {
    var total := u.bloomPoints + points;
    AwardLadder(u.badges, total);
    u.(bloomPoints := total, tasksCompleted := u.tasksCompleted + 1,
       badges := AwardFrom(u.badges, total, Badges))
  }

  /** redeem_reward: the cost leaves the balance, the title joins the end of
      the reward list, and nothing else changes; a balance that covers the
      cost stays non-negative. */
  function Redeemed(u: User, r: Reward): (c: User)
    ensures c.bloomPoints + r.points == u.bloomPoints
    ensures r.points <= u.bloomPoints ==> 0 <= c.bloomPoints
    ensures c.rewards == u.rewards + [r.title] && c.rewards[..|u.rewards|] == u.rewards
    ensures c.(bloomPoints := u.bloomPoints, rewards := u.rewards) == u
  {
    var c := u.(bloomPoints := u.bloomPoints - r.points, rewards := u.rewards + [r.title]);
    assert c.rewards[..|u.rewards|] == u.rewards;
    c
  }

  /** update_user: username, email and age are overwritten; city and
      profile image only by a non-empty value. */
  function Updated(u: User, username: string, newEmail: string, age: int, city: string, profileImage: string): (c: User)
    ensures c.username == username && c.email == newEmail && c.age == age
    ensures c.city == (if city == "" then u.city else city)
    ensures c.profileImage == (if profileImage == "" then u.profileImage else profileImage)
    ensures c.(username := u.username, email := u.email, age := u.age, city := u.city,
               profileImage := u.profileImage) == u
  {
    u.(username := username, email := newEmail, age := age,
       city := if city != "" then city else u.city,
       profileImage := if profileImage != "" then profileImage else u.profileImage)
  }

  /** Sending the same update twice changes nothing the second time. */
  lemma UpdateIdempotent(u: User, username: string, newEmail: string, age: int, city: string, image: string)
    ensures var once := Updated(u, username, newEmail, age, city, image);
      Updated(once, username, newEmail, age, city, image) == once
  {
  }

  /** Completing a task re-establishes badge consistency for any record whose
      list had no repeats, whatever the points added (even negative ones). */
  lemma CreditedConsistent(u: User, points: int)
    requires NoDuplicates(u.badges)
    ensures BadgesConsistent(Credited(u, points))
    ensures u.badges <= Credited(u, points).badges
  {
    AwardLadder(u.badges, u.bloomPoints + points);
  }

  /** The record complete_task writes back, once the badge loop has run. */
  lemma CreditedBy(u: User, points: int, badges: seq<string>)
    requires badges == AwardFrom(u.badges, u.bloomPoints + points, Badges)
    ensures Credited(u, points) ==
              u.(bloomPoints := u.bloomPoints + points, tasksCompleted := u.tasksCompleted + 1, badges := badges)
  {
  }

  /** The invariant survives every successful handler. */
  lemma CreditKeepsValid(users: seq<User>, i: nat, points: int)
    requires ValidUsers(users) && i < |users|
    ensures ValidUsers(users[i := Credited(users[i], points)])
  {
    assert users[i] in users;
    CreditedConsistent(users[i], points);
    var after := users[i := Credited(users[i], points)];
    forall u | u in after ensures BadgesConsistent(u) {
      var j :| 0 <= j < |after| && after[j] == u;
      if j != i { assert users[j] == u; }
    }
  }

  lemma RedeemKeepsValid(users: seq<User>, i: nat, r: Reward)
    requires ValidUsers(users) && i < |users| && 0 <= r.points
    ensures ValidUsers(users[i := Redeemed(users[i], r)])
  {
    var after := users[i := Redeemed(users[i], r)];
    forall u | u in after ensures BadgesConsistent(u) {
      var j :| 0 <= j < |after| && after[j] == u;
      if j != i { assert users[j] == u; } else { assert BadgesConsistent(users[i]); }
    }
  }

  lemma UpdateKeepsValid(users: seq<User>, i: nat, username: string, newEmail: string, age: int, city: string, image: string)
    requires ValidUsers(users) && i < |users|
    requires newEmail == users[i].email || !Registered(users, newEmail)
    ensures ValidUsers(users[i := Updated(users[i], username, newEmail, age, city, image)])
  {
    var after := users[i := Updated(users[i], username, newEmail, age, city, image)];
    forall j, k | 0 <= j < k < |after| ensures after[j].email != after[k].email {
      if j == i { assert users[k] in users; } else if k == i { assert users[j] in users; }
    }
    forall u | u in after ensures BadgesConsistent(u) {
      var j :| 0 <= j < |after| && after[j] == u;
      if j != i { assert users[j] == u; } else { assert BadgesConsistent(users[i]); }
    }
  }

  lemma SelectCityKeepsValid(users: seq<User>, i: nat, city: string)
    requires ValidUsers(users) && i < |users|
    ensures ValidUsers(users[i := users[i].(city := city)])
  {
    var after := users[i := users[i].(city := city)];
    forall u | u in after ensures BadgesConsistent(u) {
      var j :| 0 <= j < |after| && after[j] == u;
      if j != i { assert users[j] == u; } else { assert BadgesConsistent(users[i]); }
    }
  }

  lemma SignupKeepsValid(users: seq<User>, email: string, password: string, age: int, username: string)
    requires ValidUsers(users) && !Registered(users, email)
    ensures ValidUsers(users + [NewUser(email, password, age, username)])
  {
    var after := users + [NewUser(email, password, age, username)];
    forall j, k | 0 <= j < k < |after| ensures after[j].email != after[k].email {
      if k == |users| { assert users[j] in users; }
    }
  }
}
