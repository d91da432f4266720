/** The browser client's reading of an AQI value (frontend/script.js): the
    category it is shown under, the width of the AQI bar, the health effects
    listed for the category and which of their icons are animated. */
module ClientAqi {
  import opened Common
  import opened Catalog

  /** The six categories of the US EPA AQI, as the client names them. */
  datatype Category = Good | Moderate | UnhealthySensitive | Unhealthy | VeryUnhealthy | Hazardous

  /** The CSS class (and AQI_EFFECTS key) of a category. */
  function Key(c: Category): string {
    match c
    case Good => "good"
    case Moderate => "moderate"
    case UnhealthySensitive => "unhealthy-sensitive"
    case Unhealthy => "unhealthy"
    case VeryUnhealthy => "very-unhealthy"
    case Hazardous => "hazardous"
  }

  /** The description shown under the reading. */
  function Label(c: Category): string {
    match c
    case Good => "Good"
    case Moderate => "Moderate"
    case UnhealthySensitive => "Unhealthy for Sensitive Groups"
    case Unhealthy => "Unhealthy"
    case VeryUnhealthy => "Very Unhealthy"
    case Hazardous => "Hazardous"
  }

  /** Position of a category from best to worst. */
  function Rank(c: Category): nat {
    match c
    case Good => 0
    case Moderate => 1
    case UnhealthySensitive => 2
    case Unhealthy => 3
    case VeryUnhealthy => 4
    case Hazardous => 5
  }

  /** The if/else chain of fetchAqi: inclusive upper bounds 50, 100, 150,
      200 and 300. */
  function CategoryOf(aqi: int): (c: Category)
    ensures c == Good <==> aqi <= 50
    ensures c == Moderate <==> 51 <= aqi <= 100
    ensures c == UnhealthySensitive <==> 101 <= aqi <= 150
    ensures c == Unhealthy <==> 151 <= aqi <= 200
    ensures c == VeryUnhealthy <==> 201 <= aqi <= 300
    ensures c == Hazardous <==> 301 <= aqi
  {
    if aqi <= 50 then Good
    else if aqi <= 100 then Moderate
    else if aqi <= 150 then UnhealthySensitive
    else if aqi <= 200 then Unhealthy
    else if aqi <= 300 then VeryUnhealthy
    else Hazardous
  }

  /** A worse reading never gets a better category. */
  lemma CategoryMonotone(a1: int, a2: int)
    requires a1 <= a2
    ensures Rank(CategoryOf(a1)) <= Rank(CategoryOf(a2))
  {
  }

  lemma CategoryKeysDistinct(c1: Category, c2: Category)
    requires c1 != c2
    ensures Key(c1) != Key(c2) && Label(c1) != Label(c2)
  {
  }

  /** The task band a category corresponds to, position for position. */
  function BandFor(c: Category): Band {
    match c
    case Good => Band0To50
    case Moderate => Band51To100
    case UnhealthySensitive => Band101To150
    case Unhealthy => Band151To200
    case VeryUnhealthy => Band201To300
    case Hazardous => Band301Plus
  }

  /** loadTasks picks the task band with the same cut points as the
      category: for every reading, band i goes with category i, so the
      tasks offered always match the category displayed. */
  lemma BandMatchesCategory(aqi: int)
    ensures BandOf(aqi) == BandFor(CategoryOf(aqi))
  {
  }

  /** `Math.min(aqi / 300 * 100, 100)`: the bar fills proportionally up to
      a reading of 300 and is full from there on. */
  function BarWidth(aqi: int): (w: real)
    ensures 0 <= aqi ==> 0.0 <= w <= 100.0
    ensures w == 100.0 <==> 300 <= aqi
    ensures aqi < 300 ==> w == aqi as real / 3.0
  {
    var ratio := aqi as real / 300.0 * 100.0;
    if ratio < 100.0 then ratio else 100.0
  }

  lemma BarWidthMonotone(a1: int, a2: int)
    requires a1 <= a2
    ensures BarWidth(a1) <= BarWidth(a2)
  {
  }

  /** The icon class of an effect row. */
  datatype Icon = Respiratory | Cardiovascular | Visibility

  /** An AQI_EFFECTS entry; its description and prevention prose are not
      part of this model. */
  datatype Effect = Effect(name: string, icon: Icon)

  // AQI_EFFECTS, one entry per category.
  const GoodEffects: seq<Effect> :=
    [Effect("Minimal Impact", Respiratory)]
  const ModerateEffects: seq<Effect> :=
    [Effect("Mild Respiratory Irritation", Respiratory)]
  const UnhealthySensitiveEffects: seq<Effect> :=
    [Effect("Respiratory Issues", Respiratory),
     Effect("Eye Irritation", Visibility)]
  const UnhealthyEffects: seq<Effect> :=
    [Effect("Severe Respiratory Issues", Respiratory),
     Effect("Cardiovascular Strain", Cardiovascular),
     Effect("Reduced Visibility", Visibility)]
  const VeryUnhealthyEffects: seq<Effect> :=
    [Effect("Serious Respiratory Problems", Respiratory),
     Effect("Heart and Lung Damage", Cardiovascular),
     Effect("Severe Visibility Issues", Visibility)]
  const HazardousEffects: seq<Effect> :=
    [Effect("Critical Respiratory Failure", Respiratory),
     Effect("Cardiovascular Emergencies", Cardiovascular),
     Effect("Dangerous Visibility Loss", Visibility)]

  /** AQI_EFFECTS, keyed by category: one to three rows, the respiratory
      one first, and no icon kind twice, so the first icon of a kind is the
      only one. */
  function Effects(c: Category): (es: seq<Effect>)
    ensures 1 <= |es| <= 3 && es[0].icon == Respiratory
    ensures forall i, j :: 0 <= i < j < |es| ==> es[i].icon != es[j].icon
  {
    match c
    case Good => GoodEffects
    case Moderate => ModerateEffects
    case UnhealthySensitive => UnhealthySensitiveEffects
    case Unhealthy => UnhealthyEffects
    case VeryUnhealthy => VeryUnhealthyEffects
    case Hazardous => HazardousEffects
  }

  /** Whether the rendered effect list has a row with the given icon. */
  predicate Shows(c: Category, icon: Icon) {
    exists e :: e in Effects(c) && e.icon == icon
  }

  /** Which icon kinds the list for a reading shows: the respiratory icon
      always, the visibility icon above 100, the cardiovascular icon above
      150. */
  lemma ShownIcons(aqi: int)
    ensures Shows(CategoryOf(aqi), Respiratory)
    ensures Shows(CategoryOf(aqi), Visibility) <==> 100 < aqi
    ensures Shows(CategoryOf(aqi), Cardiovascular) <==> 150 < aqi
  {
    var c := CategoryOf(aqi);
    assert Effects(c)[0].icon == Respiratory;
    if 100 < aqi {
      assert Effects(c)[|Effects(c)| - 1].icon == Visibility;
    }
    if 150 < aqi {
      assert Effects(c)[1].icon == Cardiovascular;
    }
  }

  /** The state of the three animation toggles after updateEffects; None
      where the list has no icon of that kind, so nothing is toggled. */
  datatype Animation = Animation(shake: Option<bool>, pulse: Option<bool>, fade: Option<bool>)

  /** `classList.toggle(..., aqi > t)` on the first icon of each kind, with
      thresholds 50 (shake), 100 (pulse) and 150 (fade). The respiratory
      icon shakes exactly above 50. The cardiovascular icon is on screen
      only above 150, so whenever it is there it pulses: its own threshold
      of 100 never decides anything. The visibility icon is on screen above
      100 and fades exactly above 150. */
  function Animate(aqi: int): (a: Animation)
    ensures a.shake == Some(aqi > 50)
    ensures a.pulse == (if 150 < aqi then Some(true) else None)
    ensures a.fade.Some? <==> 100 < aqi
    ensures a.fade == Some(true) <==> 150 < aqi
  {
    ShownIcons(aqi);
    var c := CategoryOf(aqi);
    Animation(
      if Shows(c, Respiratory) then Some(aqi > 50) else None,
      if Shows(c, Cardiovascular) then Some(aqi > 100) else None,
      if Shows(c, Visibility) then Some(aqi > 150) else None)
  }
}
