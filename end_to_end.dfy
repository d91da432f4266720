/** Properties that tie the browser client to the backend: what the client
    sends and shows follows from what the backend does. */
module EndToEnd {
  import opened Common
  import opened Catalog
  import opened Users
  import ClientBadges
  import ClientSession

  /** The age the backend receives from the form's text field: nothing when
      the field is empty, otherwise the number it holds. */
  function AgeSent(text: string, value: int): Option<int> {
    if text == "" then None else Some(value)
  }

  /** The client's form check and the backend's presence check agree, so a
      login or sign-up the client lets through is never refused with 400
      for a missing field, and the client never holds back a request the
      backend would accept. */
  lemma FormMatchesBackend(username: string, email: string, password: string, ageText: string, age: int)
    ensures ClientSession.FormComplete(username, email, password, ageText) <==>
              CredentialsGiven(email, password, AgeSent(ageText, age), username)
  {
  }

  /** After complete_task, the client's diff of the old and new badge lists
      is exactly the badges the task newly earned, in ladder order, and one
      congratulation is shown for each of them. */
  lemma TaskNotifications(u: User, points: int)
    ensures ClientBadges.NewBadges(u.badges, Credited(u, points).badges) ==
              Newly(u.badges, u.bloomPoints + points, Badges)
    ensures |ClientBadges.Notifications(u.badges, Credited(u, points).badges)| ==
              |Newly(u.badges, u.bloomPoints + points, Badges)|
  {
    var total := u.bloomPoints + points;
    AwardLadder(u.badges, total);
    NewlyMembers(u.badges, total, Badges);
    ClientBadges.NewBadgesOfAppended(u.badges, Newly(u.badges, total, Badges));
  }

  /** A task that crosses no threshold shows no notification. */
  lemma NoThresholdNoNotification(u: User, points: int)
    requires BadgesConsistent(u)
    requires forall b :: b in Badges ==> (b.threshold <= u.bloomPoints + points ==> b.threshold <= u.bloomPoints)
    ensures ClientBadges.Notifications(u.badges, Credited(u, points).badges) == []
  {
    TaskNotifications(u, points);
    NothingNew(u.badges, u.bloomPoints + points, Badges);
  }
}
