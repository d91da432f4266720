/** The Flask handlers of backend/app.py over the shared user list. The
    list that load_users reads and save_users writes back is the `users`
    field of one UserStore; each handler is a method that answers with the
    handler's status code and updates the list in place exactly as the
    handler does.

    Request fields arrive as strings; the empty string stands for a field
    that is missing or empty, both of which Python treats as false. Age and
    points arrive already parsed, as `Option<int>` (None when missing). */
module Backend {
  import opened Common
  import opened Catalog
  import opened Users
  import Leaderboard

  class UserStore {
    var users: seq<User>

    /** Unique emails, and for every record a badge list without repeats
        that holds every badge its points reach. */
    ghost predicate Valid()
      reads this
    {
      ValidUsers(users)
    }

    /** The store as load_users returns it: whatever list the file holds,
      or the empty list when there is no file. The invariant holds from the
      start for the empty list and for any file that satisfies it. */
    constructor (loaded: seq<User>)
      ensures users == loaded
      ensures ValidUsers(loaded) ==> Valid()
      ensures loaded == [] ==> Valid()
    {
      users := loaded;
    }

    /** POST /api/login. */
    method Login(email: string, password: string, age: Option<int>, username: string) returns (r: Response<User>)
      ensures r.status == StatusBadRequest <==> !CredentialsGiven(email, password, age, username)
      ensures r.status == StatusOk <==>
                CredentialsGiven(email, password, age, username) &&
                exists u :: u in users && u.email == email && u.password == password
      ensures r.status in {StatusBadRequest, StatusOk, StatusUnauthorized}
      ensures r.status == StatusOk ==>
                r.body.Some? && r.body.value in users &&
                r.body.value.email == email && r.body.value.password == password
      ensures r.status != StatusOk ==> r.body.None?
    {
      if email == "" || password == "" || age.None? || username == "" {
        return Response(StatusBadRequest, None);
      }
      var i := FindCredentials(users, email, password);
      if i.None? {
        return Response(StatusUnauthorized, None);
      }
      r := Response(StatusOk, Some(users[i.value]));
    }

    /** POST /api/signup. */
    method Signup(email: string, password: string, age: Option<int>, username: string) returns (status: int)
      modifies this
      ensures status == StatusBadRequest <==> !CredentialsGiven(email, password, age, username)
      ensures status == StatusConflict <==>
                CredentialsGiven(email, password, age, username) && Registered(old(users), email)
      ensures status in {StatusBadRequest, StatusConflict, StatusCreated}
      ensures status != StatusCreated ==> users == old(users)
      ensures status == StatusCreated ==> users == old(users) + [NewUser(email, password, age.value, username)]
      ensures old(Valid()) ==> Valid()
    {
      if email == "" || password == "" || age.None? || username == "" {
        return StatusBadRequest;
      }
      if FindUser(users, email).Some? {
        return StatusConflict;
      }
      if ValidUsers(users) {
        SignupKeepsValid(users, email, password, age.value, username);
      }
      users := users + [NewUser(email, password, age.value, username)];
      status := StatusCreated;
    }

    /** POST /api/select-city. */
    method SelectCity(email: string, city: string) returns (status: int)
      modifies this
      ensures status == StatusBadRequest <==> email == "" || city == ""
      ensures status == StatusNotFound <==> email != "" && city != "" && !Registered(old(users), email)
      ensures status in {StatusBadRequest, StatusNotFound, StatusOk}
      ensures status != StatusOk ==> users == old(users)
      ensures status == StatusOk ==>
                FindUser(old(users), email).Some? &&
                var i := FindUser(old(users), email).value;
                users == old(users)[i := old(users)[i].(city := city)]
      ensures old(Valid()) ==> Valid()
    {
      if email == "" || city == "" {
        return StatusBadRequest;
      }
      var found := FindUser(users, email);
      if found.None? {
        return StatusNotFound;
      }
      var i := found.value;
      if ValidUsers(users) {
        SelectCityKeepsValid(users, i, city);
      }
      users := users[i := users[i].(city := city)];
      status := StatusOk;
    }

    /** GET /api/user. */
    method GetUser(email: string) returns (r: Response<User>)
      ensures r.status == StatusBadRequest <==> email == ""
      ensures r.status == StatusNotFound <==> email != "" && !Registered(users, email)
      ensures r.status in {StatusBadRequest, StatusNotFound, StatusOk}
      ensures r.status == StatusOk ==> r.body.Some? && r.body.value in users && r.body.value.email == email
      ensures r.status != StatusOk ==> r.body.None?
    {
      if email == "" {
        return Response(StatusBadRequest, None);
      }
      var found := FindUser(users, email);
      if found.None? {
        return Response(StatusNotFound, None);
      }
      r := Response(StatusOk, Some(users[found.value]));
    }

    /** POST /api/complete-task: credit the points, count the task, award
        every newly reached badge. The task text is only checked for presence. */
    method CompleteTask(email: string, task: string, points: Option<int>) returns (status: int)
      modifies this
      ensures status == StatusBadRequest <==> email == "" || task == "" || points.None?
      ensures status == StatusNotFound <==>
                email != "" && task != "" && points.Some? && !Registered(old(users), email)
      ensures status in {StatusBadRequest, StatusNotFound, StatusOk}
      ensures status != StatusOk ==> users == old(users)
      ensures status == StatusOk ==>
                FindUser(old(users), email).Some? &&
                var i := FindUser(old(users), email).value;
                users == old(users)[i := Credited(old(users)[i], points.value)]
      ensures old(Valid()) ==> Valid()
    {
      if email == "" || task == "" || points.None? {
        return StatusBadRequest;
      }
      var found := FindUser(users, email);
      if found.None? {
        return StatusNotFound;
      }
      var i := found.value;
      var u := users[i];
      var total := u.bloomPoints + points.value;
      var badges := AwardBadges(u.badges, total);
      CreditedBy(u, points.value, badges);
      if ValidUsers(users) {
        CreditKeepsValid(users, i, points.value);
      }
      users := users[i := u.(bloomPoints := total, tasksCompleted := u.tasksCompleted + 1, badges := badges)];
      status := StatusOk;
    }

    /** POST /api/redeem-reward: the reward must be offered to the user's
        age group and affordable; its cost is then deducted and its title
        recorded. Badges are never revoked. */
    method RedeemReward(email: string, reward: string) returns (status: int)
      modifies this
      ensures status in {StatusBadRequest, StatusNotFound, StatusOk}
      ensures email == "" || reward == "" ==> status == StatusBadRequest
      ensures email != "" && reward != "" && !Registered(old(users), email) ==> status == StatusNotFound
      ensures status != StatusOk ==> users == old(users)
      ensures email != "" && reward != "" && FindUser(old(users), email).Some? ==>
                var i := FindUser(old(users), email).value;
                var u := old(users)[i];
                var offer := FindReward(Rewards(AgeGroupOf(u.age)), reward);
                && (offer.None? ==> status == StatusNotFound)
                && (offer.Some? && u.bloomPoints < offer.value.points ==> status == StatusBadRequest)
                && (offer.Some? && u.bloomPoints >= offer.value.points ==>
                      && status == StatusOk
                      && users == old(users)[i := Redeemed(u, offer.value)]
                      && users[i].bloomPoints == u.bloomPoints - offer.value.points >= 0
                      && users[i].rewards == u.rewards + [reward]
                      && users[i].badges == u.badges)
      ensures old(Valid()) ==> Valid()
    {
      if email == "" || reward == "" {
        return StatusBadRequest;
      }
      var found := FindUser(users, email);
      if found.None? {
        return StatusNotFound;
      }
      var i := found.value;
      var u := users[i];
      var group := AgeGroupOf(u.age);
      var offer := FindReward(Rewards(group), reward);
      if offer.None? {
        return StatusNotFound;
      }
      if u.bloomPoints < offer.value.points {
        return StatusBadRequest;
      }
      if ValidUsers(users) {
        RedeemKeepsValid(users, i, offer.value);
      }
      users := users[i := u.(bloomPoints := u.bloomPoints - offer.value.points, rewards := u.rewards + [reward])];
      status := StatusOk;
    }

    /** GET /api/leaderboard. */
    method GetLeaderboard() returns (board: seq<Leaderboard.Entry>)
      ensures Leaderboard.IsRanking(users, board)
    {
      board := Leaderboard.Rank(users);
    }

    /** POST /api/update-user: a new email must not belong to anybody else;
        username, email and age are overwritten, city and profile image only
        when a non-empty value is sent. */
    method UpdateUser(email: string, username: string, newEmail: string, age: Option<int>,
                      city: string, profileImage: string) returns (status: int)
      modifies this
      ensures status == StatusBadRequest <==> email == "" || username == "" || newEmail == "" || age.None?
      ensures status == StatusNotFound <==>
                email != "" && username != "" && newEmail != "" && age.Some? && !Registered(old(users), email)
      ensures status == StatusConflict <==>
                email != "" && username != "" && newEmail != "" && age.Some? && Registered(old(users), email) &&
                newEmail != email && Registered(old(users), newEmail)
      ensures status in {StatusBadRequest, StatusNotFound, StatusConflict, StatusOk}
      ensures status != StatusOk ==> users == old(users)
      ensures status == StatusOk ==>
                FindUser(old(users), email).Some? &&
                var i := FindUser(old(users), email).value;
                && users == old(users)[i := Updated(old(users)[i], username, newEmail, age.value, city, profileImage)]
                && users[i].email == newEmail
                && users[i].city == (if city != "" then city else old(users)[i].city)
                && users[i].profileImage == (if profileImage != "" then profileImage else old(users)[i].profileImage)
      ensures old(Valid()) ==> Valid()
    {
      if email == "" || username == "" || newEmail == "" || age.None? {
        return StatusBadRequest;
      }
      var found := FindUser(users, email);
      if found.None? {
        return StatusNotFound;
      }
      if newEmail != email && FindUser(users, newEmail).Some? {
        return StatusConflict;
      }
      var i := found.value;
      if ValidUsers(users) {
        UpdateKeepsValid(users, i, username, newEmail, age.value, city, profileImage);
      }
      var u := users[i];
      var updated := u.(username := username, email := newEmail, age := age.value);
      if city != "" {
        updated := updated.(city := city);
      }
      if profileImage != "" {
        updated := updated.(profileImage := profileImage);
      }
      users := users[i := updated];
      status := StatusOk;
    }
  }
}
