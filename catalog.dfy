/** The static reference data that the backend (backend/app.py) and the
    browser client (frontend/script.js) both carry, verbatim, in their own
    copies: tasks by age group and AQI band, rewards by age group, and the
    badge ladder. One set of constants serves both sides here. */
module Catalog {
  import opened Common

  /** The three audiences that tasks and rewards are tailored to. */
  datatype AgeGroup = Children | Teenagers | Adults

  /** `age <= 12 ? 'children' : age <= 19 ? 'teenagers' : 'adults'`; the
      same rule stands at both client sites and in the backend's
      redeem handler, so all three use this one function. */
  function AgeGroupOf(age: int): (g: AgeGroup)
    ensures g == Children <==> age <= 12
    ensures g == Teenagers <==> 13 <= age <= 19
    ensures g == Adults <==> 20 <= age
  {
    if age <= 12 then Children else if age <= 19 then Teenagers else Adults
  }

  /** The key of the task table that a reading selects, one per AQI band. */
  datatype Band = Band0To50 | Band51To100 | Band101To150 | Band151To200 | Band201To300 | Band301Plus

  function BandKey(b: Band): string {
    match b
    case Band0To50 => "0-50"
    case Band51To100 => "51-100"
    case Band101To150 => "101-150"
    case Band151To200 => "151-200"
    case Band201To300 => "201-300"
    case Band301Plus => "301+"
  }

  /** Inclusive bounds the band's key names; the last band has no upper bound. */
  function BandLow(b: Band): int {
    match b
    case Band0To50 => 0
    case Band51To100 => 51
    case Band101To150 => 101
    case Band151To200 => 151
    case Band201To300 => 201
    case Band301Plus => 301
  }

  function BandHigh(b: Band): Option<int> {
    match b
    case Band0To50 => Some(50)
    case Band51To100 => Some(100)
    case Band101To150 => Some(150)
    case Band151To200 => Some(200)
    case Band201To300 => Some(300)
    case Band301Plus => None
  }

  /** The nested ternary that picks `aqiRange` from a reading. */
  function BandOf(aqi: int): (b: Band)
    ensures BandHigh(b).Some? ==> aqi <= BandHigh(b).value
    ensures 0 <= aqi ==> BandLow(b) <= aqi
    ensures b == Band301Plus <==> 300 < aqi
  {
    if aqi <= 50 then Band0To50
    else if aqi <= 100 then Band51To100
    else if aqi <= 150 then Band101To150
    else if aqi <= 200 then Band151To200
    else if aqi <= 300 then Band201To300
    else Band301Plus
  }

  lemma BandKeysDistinct(b1: Band, b2: Band)
    requires b1 != b2
    ensures BandKey(b1) != BandKey(b2)
  {
  }

  datatype Task = Task(description: string, points: int)

  /** An entry of the task table: three tasks, each worth 10 to 30 points. */
  predicate TaskRow(ts: seq<Task>) {
    |ts| == 3 && 10 <= ts[0].points <= 30 && 10 <= ts[1].points <= 30 && 10 <= ts[2].points <= 30
  }

  // TASKS["children"], one entry per band.
  const Children0To50: seq<Task> :=
    [Task("Create urban wind corridors", 15),
     Task("Launch community air monitoring networks", 20),
     Task("Plant native trees in parks", 10)]
  const Children51To100: seq<Task> :=
    [Task("Design eco-friendly toys", 10),
     Task("Start a school recycling program", 15),
     Task("Paint with natural dyes", 10)]
  const Children101To150: seq<Task> :=
    [Task("Organize a clean-up walk", 15),
     Task("Build a birdhouse", 10),
     Task("Learn about air filters", 10)]
  const Children151To200: seq<Task> :=
    [Task("Create car-free play zones", 20),
     Task("Make a compost bin", 15),
     Task("Join a tree-planting event", 15)]
  const Children201To300: seq<Task> :=
    [Task("Promote walking to school", 15),
     Task("Create anti-pollution posters", 10),
     Task("Participate in a green challenge", 20)]
  const Children301Plus: seq<Task> :=
    [Task("Assist in drone air quality surveys", 25),
     Task("Design a pollution mask", 15),
     Task("Help monitor local air", 20)]

  /** TASKS["children"], keyed by band. */
  function ChildrenTasks(b: Band): seq<Task> {
    match b
    case Band0To50 => Children0To50
    case Band51To100 => Children51To100
    case Band101To150 => Children101To150
    case Band151To200 => Children151To200
    case Band201To300 => Children201To300
    case Band301Plus => Children301Plus
  }

  lemma ChildrenTasksShape(b: Band)
    ensures TaskRow(ChildrenTasks(b))
  {
    match b
    case Band0To50 =>
    case Band51To100 =>
    case Band101To150 =>
    case Band151To200 =>
    case Band201To300 =>
    case Band301Plus =>
  }

  // TASKS["teenagers"], one entry per band.
  const Teenager0To50: seq<Task> :=
    [Task("Develop air cleaning bicycle paths", 20),
     Task("Install solar-powered lights", 15),
     Task("Organize a bike rally", 15)]
  const Teenager51To100: seq<Task> :=
    [Task("Apply eco-friendly paints", 10),
     Task("Set up green roofs", 20),
     Task("Conduct air quality workshops", 15)]
  const Teenager101To150: seq<Task> :=
    [Task("Implement remote work days", 20),
     Task("Introduce traffic calming zones", 15),
     Task("Launch a carpool initiative", 15)]
  const Teenager151To200: seq<Task> :=
    [Task("Deploy mobile air purifiers", 25),
     Task("Enforce no-idling zones", 15),
     Task("Monitor pollution hotspots", 20)]
  const Teenager201To300: seq<Task> :=
    [Task("Use drones for tree planting", 25),
     Task("Promote public transit use", 15),
     Task("Create air quality apps", 20)]
  const Teenager301Plus: seq<Task> :=
    [Task("Establish emergency bike lanes", 25),
     Task("Lead pollution awareness campaigns", 20),
     Task("Coordinate air filter drives", 20)]

  /** TASKS["teenagers"], keyed by band. */
  function TeenagerTasks(b: Band): seq<Task> {
    match b
    case Band0To50 => Teenager0To50
    case Band51To100 => Teenager51To100
    case Band101To150 => Teenager101To150
    case Band151To200 => Teenager151To200
    case Band201To300 => Teenager201To300
    case Band301Plus => Teenager301Plus
  }

  lemma TeenagerTasksShape(b: Band)
    ensures TaskRow(TeenagerTasks(b))
  {
    match b
    case Band0To50 =>
    case Band51To100 =>
    case Band101To150 =>
    case Band151To200 =>
    case Band201To300 =>
    case Band301Plus =>
  }

  // TASKS["adults"], one entry per band.
  const Adult0To50: seq<Task> :=
    [Task("Implement photocatalytic coatings", 20),
     Task("Install air purifying billboards", 25),
     Task("Design green building plans", 20)]
  const Adult51To100: seq<Task> :=
    [Task("Enforce flexible work hours", 15),
     Task("Deploy smog-eating cement", 20),
     Task("Initiate urban forest projects", 20)]
  const Adult101To150: seq<Task> :=
    [Task("Restrict high-emission vehicles", 20),
     Task("Introduce congestion pricing", 15),
     Task("Promote telecommuting", 15)]
  const Adult151To200: seq<Task> :=
    [Task("Activate air purification towers", 25),
     Task("Expand green wall installations", 20),
     Task("Implement traffic rerouting", 15)]
  const Adult201To300: seq<Task> :=
    [Task("Mandate remote work policies", 20),
     Task("Apply maximum road tolls", 15),
     Task("Deploy emergency air filters", 25)]
  const Adult301Plus: seq<Task> :=
    [Task("Launch widespread drone spraying", 30),
     Task("Create city-wide no-car zones", 25),
     Task("Maximize all purification tech", 30)]

  /** TASKS["adults"], keyed by band. */
  function AdultTasks(b: Band): seq<Task> {
    match b
    case Band0To50 => Adult0To50
    case Band51To100 => Adult51To100
    case Band101To150 => Adult101To150
    case Band151To200 => Adult151To200
    case Band201To300 => Adult201To300
    case Band301Plus => Adult301Plus
  }

  lemma AdultTasksShape(b: Band)
    ensures TaskRow(AdultTasks(b))
  {
    match b
    case Band0To50 =>
    case Band51To100 =>
    case Band101To150 =>
    case Band151To200 =>
    case Band201To300 =>
    case Band301Plus =>
  }

  /** TASKS[ageGroup][aqiRange]: defined for every group and band, so the
      client's lookup never fails, and always three tasks of 10 to 30
      points. */
  function Tasks(g: AgeGroup, b: Band): (ts: seq<Task>)
    ensures TaskRow(ts)
  {
    match g
    case Children => ChildrenTasksShape(b); ChildrenTasks(b)
    case Teenagers => TeenagerTasksShape(b); TeenagerTasks(b)
    case Adults => AdultTasksShape(b); AdultTasks(b)
  }

  datatype Reward = Reward(title: string, points: int, description: string)

  /** REWARDS["children"]. */
  const ChildrenRewards: seq<Reward> :=
    [Reward("Eco-Friendly Coloring Book", 30, "A coloring book with nature themes."),
     Reward("Plantable Seed Paper", 50, "Paper that grows into plants."),
     Reward("Mini Gardening Kit", 75, "A kit to start your own garden."),
     Reward("Eco-Friendly Backpack", 100, "Sustainable backpack for school."),
     Reward("Nature Explorer Kit", 150, "Binoculars and a nature journal."),
     Reward("Reusable Straw Set", 200, "Set of eco-friendly straws.")]

  /** REWARDS["teenagers"]. */
  const TeenagerRewards: seq<Reward> :=
    [Reward("Reusable Face Mask", 50, "Sustainable face mask."),
     Reward("Bamboo Water Bottle", 75, "Eco-friendly water bottle."),
     Reward("Eco-Friendly Notebook", 100, "Notebook from recycled paper."),
     Reward("Solar-Powered Phone Charger", 150, "Portable solar charger."),
     Reward("Sustainable Sneakers", 200, "Sneakers from recycled materials."),
     Reward("Eco-Friendly T-Shirt", 250, "Organic cotton t-shirt.")]

  /** REWARDS["adults"]. */
  const AdultRewards: seq<Reward> :=
    [Reward("Air Purifying Plant", 50, "Plant that cleans indoor air."),
     Reward("Smart Air Quality Monitor", 100, "Personal air quality device."),
     Reward("Eco-Friendly Coffee Maker", 150, "Sustainable coffee maker."),
     Reward("Solar Charger", 200, "Portable solar charging device."),
     Reward("Eco-Friendly Home Kit", 300, "Kit with sustainable products."),
     Reward("Reusable Laptop Sleeve", 350, "Eco-friendly laptop sleeve.")]

  /** Six rewards costing 30 to 350 points, each dearer than the one before. */
  predicate RewardLadder(rs: seq<Reward>) {
    && |rs| == 6
    && (forall k :: 0 <= k < 6 ==> 30 <= rs[k].points <= 350)
    && (forall k :: 0 <= k < 5 ==> rs[k].points < rs[k + 1].points)
  }

  lemma ChildrenRewardsShape()
    ensures RewardLadder(ChildrenRewards)
  {
  }

  lemma TeenagerRewardsShape()
    ensures RewardLadder(TeenagerRewards)
  {
  }

  lemma AdultRewardsShape()
    ensures RewardLadder(AdultRewards)
  {
  }

  /** REWARDS[ageGroup]: every group has a list, of six rewards, cheapest
      first. */
  function Rewards(g: AgeGroup): (rs: seq<Reward>)
    ensures RewardLadder(rs)
  {
    match g
    case Children => ChildrenRewardsShape(); ChildrenRewards
    case Teenagers => TeenagerRewardsShape(); TeenagerRewards
    case Adults => AdultRewardsShape(); AdultRewards
  }

  /** Each reward costs more than every reward listed before it. */
  lemma {:induction false} RewardsAscending(g: AgeGroup, i: nat, j: nat)
    requires i < j < |Rewards(g)|
    ensures Rewards(g)[i].points < Rewards(g)[j].points
    decreases j - i
  {
    if j > i + 1 {
      RewardsAscending(g, i, j - 1);
    }
  }

  /** `next((r for r in rewards if r['title'] == title), None)`: the first
      reward with that title, or nothing. */
  function FindReward(rewards: seq<Reward>, title: string): (r: Option<Reward>)
    ensures r.Some? ==> r.value in rewards && r.value.title == title
    ensures r.None? <==> forall x :: x in rewards ==> x.title != title
    ensures r.Some? ==> exists i :: 0 <= i < |rewards| && rewards[i] == r.value &&
                          forall j :: 0 <= j < i ==> rewards[j].title != title
  {
    var k := TitleIndex(rewards, title);
    if k < |rewards| then Some(rewards[k]) else None
  }

  /** The position of the first reward with the title, or `|rewards|`. */
  function TitleIndex(rewards: seq<Reward>, title: string): (k: nat)
    ensures k <= |rewards|
    ensures forall j :: 0 <= j < k ==> rewards[j].title != title
    ensures k < |rewards| ==> rewards[k].title == title
  {
    if rewards == [] || rewards[0].title == title then 0
    else 1 + TitleIndex(rewards[1..], title)
  }

  datatype Badge = Badge(name: string, threshold: int, description: string)

  /** BADGES, in ascending order of threshold. */
  const Badges: seq<Badge> := [
    Badge("Green Sprout", 50, "Earned 50 Bloom Points!"),
    Badge("Eco Hero", 100, "Earned 100 Bloom Points!"),
    Badge("Nature Champion", 200, "Earned 200 Bloom Points!"),
    Badge("Air Guardian", 300, "Earned 300 Bloom Points!"),
    Badge("Planet Protector", 500, "Earned 500 Bloom Points!")
  ]

  /** No two badges of `bs` share a name. */
  predicate DistinctNames(bs: seq<Badge>) {
    forall i, j :: 0 <= i < j < |bs| ==> bs[i].name != bs[j].name
  }

  /** The badge ladder is strictly ascending, every threshold is positive
      and every name is distinct; the client's progress bar and the
      backend's awarding loop both rely on this. */
  lemma BadgeLadder()
    ensures |Badges| == 5
    ensures forall i, j :: 0 <= i < j < |Badges| ==> Badges[i].threshold < Badges[j].threshold
    ensures forall b :: b in Badges ==> b.threshold > 0
    ensures DistinctNames(Badges)
  {
  }

  /** The ladder's thresholds, badge by badge. */
  lemma BadgeThresholds()
    ensures Badges[0].threshold == 50 && Badges[1].threshold == 100 && Badges[2].threshold == 200
    ensures Badges[3].threshold == 300 && Badges[4].threshold == 500
    ensures forall b :: b in Badges ==> b == Badges[0] || b == Badges[1] || b == Badges[2] || b == Badges[3] || b == Badges[4]
  {
  }

  /** Within each group the reward titles are distinct, so the first
      match FindReward returns is the only one. */
  lemma RewardTitlesDistinct(g: AgeGroup, i: nat, j: nat)
    requires i < j < |Rewards(g)|
    ensures Rewards(g)[i].title != Rewards(g)[j].title
  {
  }
}
