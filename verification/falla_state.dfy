/**
 * The lifecycle of a falla over the festival calendar: under construction
 * before the plantà, on display, burning on the night of the cremà, and
 * gone afterwards; with the map icon, CSS class and marker colour derived
 * from it. Days are days of March and hours are 0..23 as the calendar widget
 * produces them; every function is total over all integers.
 */
module FallaState {
  import opened Wrappers
  import opened Text

  datatype State = PreConstruction | Active | Burning | PostCrema
  {
    function Name(): string {
      match this
      case PreConstruction => "pre-construction"
      case Active => "active"
      case Burning => "burning"
      case PostCrema => "post-crema"
    }
  }

  datatype StateInfo = StateInfo(
    state: State,
    icon: string,
    statusMessage: string,
    statusColor: string,
    showOnMap: bool)

  const PlantaInfantilDay: int := 15
  const PlantaGrandeDay: int := 16
  const CremaDay: int := 19
  const CremaInfantilHour: int := 20
  const CremaGrandeHour: int := 22

  /** Only the type 'infantil' is infantil; any other value, or none, is a falla grande. */
  predicate IsInfantil(fallaType: Option<string>) {
    fallaType == Some("infantil")
  }

  function PlantaDay(fallaType: Option<string>): int {
    if IsInfantil(fallaType) then PlantaInfantilDay else PlantaGrandeDay
  }

  function CremaHour(fallaType: Option<string>): int {
    if IsInfantil(fallaType) then CremaInfantilHour else CremaGrandeHour
  }

  /** getFallaState */
  function GetFallaState(fallaType: Option<string>, day: int, hour: int): (r: StateInfo)
    ensures r.showOnMap
    ensures r.state == PreConstruction <==> day < PlantaDay(fallaType)
    ensures r.state == Burning <==> day == CremaDay && hour >= CremaHour(fallaType)
    ensures r.state == PostCrema <==> day > CremaDay
    ensures r.state == Active <==>
      PlantaDay(fallaType) <= day < CremaDay || (day == CremaDay && hour < CremaHour(fallaType))
    ensures r.icon == "" <==> r.state == Active
  {
    var infantil := IsInfantil(fallaType);
    var plantaDay := PlantaDay(fallaType);
    var cremaHour := CremaHour(fallaType);
    if day < plantaDay then
      StateInfo(PreConstruction, "⏳",
        "Esta falla está en construcción. Ven a visitarla el día " + IntToString(plantaDay)
        + " de marzo (Plantà " + (if infantil then "Infantiles" else "Grandes") + ").",
        "#f59e0b", true)
    else if day == CremaDay && hour >= cremaHour then
      StateInfo(Burning, "🔥",
        "¡Esta falla está siendo quemada! La Cremà " + (if infantil then "Infantil" else "Grande")
        + " está en curso.",
        "#ef4444", true)
    else if day > CremaDay || (day == CremaDay && hour >= cremaHour + 1) then
      StateInfo(PostCrema, "⏳",
        "Esta falla ya fue quemada. ¡Nos vemos de nuevo en las Fallas 2027!",
        "#6b7280", true)
    else
      StateInfo(Active, "",
        "¡Falla activa! Puedes visitarla hasta el 19 de marzo a las " + IntToString(cremaHour) + ":00h.",
        "#10b981", true)
  }

  /**
   * The day-19 test for 'post-crema' never decides anything: 'burning' is
   * tested first with a weaker hour bound, so a falla burns until midnight.
   */
  lemma {:induction false} BurnsUntilMidnight(fallaType: Option<string>, hour: int)
    requires CremaHour(fallaType) <= hour
    ensures GetFallaState(fallaType, CremaDay, hour).state == Burning
    ensures GetFallaState(fallaType, CremaDay, 23).state == Burning
    ensures GetFallaState(fallaType, CremaDay, hour).state != PostCrema
  {
  }

  /** Days 22 and 28 of the February programme are read as March days after the cremà. */
  lemma {:induction false} FebruaryDaysArePostCrema(fallaType: Option<string>, hour: int)
    ensures GetFallaState(fallaType, 22, hour).state == PostCrema
    ensures GetFallaState(fallaType, 28, hour).state == PostCrema
  {
  }

  /** The icons of the catalogue of categories; categories outside it get the palette. */
  const CategoryIcons: map<string, string> := map[
    "Especial" := "👑",
    "Primera" := "🥇",
    "Segunda" := "🥈",
    "Tercera" := "🥉",
    "Cuarta" := "🏅",
    "Quinta" := "🎖️",
    "Sexta" := "🎗️",
    "Séptima" := "🏵️",
    "Octava" := "🌟",
    "Novena" := "⭐",
    "I+E y Corona" := "🌸"
  ]

  const DefaultCategoryIcon: string := "🎨"

  /** getCategoryIcon */
  function GetCategoryIcon(category: string, fallaType: Option<string>): (r: string)
    ensures r != ""
    ensures IsInfantil(fallaType) && Contains(category, "Especial") ==> r == "👶👑"
    ensures IsInfantil(fallaType) && !Contains(category, "Especial") ==> r == "👶"
    ensures !IsInfantil(fallaType) && category in CategoryIcons ==> r == CategoryIcons[category]
    ensures !IsInfantil(fallaType) && category !in CategoryIcons ==> r == DefaultCategoryIcon
  {
    if IsInfantil(fallaType) then
      if Contains(category, "Especial") then "👶👑" else "👶"
    else if category in CategoryIcons && CategoryIcons[category] != "" then CategoryIcons[category]
    else DefaultCategoryIcon
  }

  /** getFallaMapIcon: the state's icon, or the category icon while the falla is on display. */
  function GetFallaMapIcon(fallaType: Option<string>, category: string, day: int, hour: int): (r: string)
    ensures r != ""
    ensures GetFallaState(fallaType, day, hour).state == Active ==> r == GetCategoryIcon(category, fallaType)
    ensures GetFallaState(fallaType, day, hour).state != Active ==> r == GetFallaState(fallaType, day, hour).icon
  {
    var info := GetFallaState(fallaType, day, hour);
    if info.icon != "" then info.icon else GetCategoryIcon(category, fallaType)
  }

  /** shouldShowBurningAnimation, which repeats the cremà test on its own. */
  function ShouldShowBurningAnimation(fallaType: Option<string>, day: int, hour: int): (r: bool)
    ensures r <==> GetFallaState(fallaType, day, hour).state == Burning
  {
    var cremaHour := if fallaType == Some("infantil") then 20 else 22;
    day == 19 && hour >= cremaHour
  }

  /** getFallaStateClass */
  function GetFallaStateClass(fallaType: Option<string>, day: int, hour: int): (r: string)
    ensures StartsWith(r, "falla-")
    ensures r[6..] == GetFallaState(fallaType, day, hour).state.Name()
  {
    "falla-" + GetFallaState(fallaType, day, hour).state.Name()
  }

  /** Different states give different CSS classes. */
  lemma {:induction false} StateClassDistinguishes(t1: Option<string>, d1: int, h1: int, t2: Option<string>, d2: int, h2: int)
    requires GetFallaState(t1, d1, h1).state != GetFallaState(t2, d2, h2).state
    ensures GetFallaStateClass(t1, d1, h1) != GetFallaStateClass(t2, d2, h2)
  {
  }

  /** getFallaMarkerColor */
  function GetFallaMarkerColor(fallaType: Option<string>, day: int, hour: int): (r: string)
    ensures GetFallaState(fallaType, day, hour).state == PreConstruction ==> r == "#f59e0b"
    ensures GetFallaState(fallaType, day, hour).state == Burning ==> r == "#ef4444"
    ensures GetFallaState(fallaType, day, hour).state == PostCrema ==> r == "#6b7280"
    ensures GetFallaState(fallaType, day, hour).state == Active ==>
      r == (if IsInfantil(fallaType) then "#10b981" else "#3b82f6")
  {
    match GetFallaState(fallaType, day, hour).state
    case PreConstruction => "#f59e0b"
    case Burning => "#ef4444"
    case PostCrema => "#6b7280"
    case Active => if fallaType == Some("infantil") then "#10b981" else "#3b82f6"
  }

  /**
   * The marker shares the status colour of the state, except that an active
   * falla grande is drawn blue rather than green.
   */
  lemma {:induction false} MarkerColorIsStatusColor(fallaType: Option<string>, day: int, hour: int)
    ensures GetFallaMarkerColor(fallaType, day, hour) == GetFallaState(fallaType, day, hour).statusColor
        <==> GetFallaState(fallaType, day, hour).state != Active || IsInfantil(fallaType)
  {
  }
}
