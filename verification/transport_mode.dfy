/** The four ways of travelling between fallas and the time model built on their speeds. */
module TransportModes {
  import opened JsNumber
  import opened Text

  datatype TransportMode = Walking | Bicycling | Transit | Driving
  {
    /** The mode's identifier, also the value of Google's `travelmode` parameter. */
    function Name(): string {
      match this
      case Walking => "walking"
      case Bicycling => "bicycling"
      case Transit => "transit"
      case Driving => "driving"
    }
  }

  datatype TransportModeConfig = TransportModeConfig(
    mode: TransportMode,
    icon: string,
    modeLabel: string,
    speedKmH: int,
    googleMapsParam: string,
    description: string,
    color: string)

  const WalkingConfig := TransportModeConfig(Walking, "🚶", "A Pie", 5, "walking",
    "Caminar es la mejor forma de disfrutar las fallas de cerca", "#10b981")
  const BicyclingConfig := TransportModeConfig(Bicycling, "🚴", "En Bici", 15, "bicycling",
    "Rápido y ecológico, perfecto para cubrir más distancia", "#3b82f6")
  const TransitConfig := TransportModeConfig(Transit, "🚇", "Transporte Público", 20, "transit",
    "Metro, autobús y tranvía de Valencia", "#f59e0b")
  const DrivingConfig := TransportModeConfig(Driving, "🚗", "En Coche", 30, "driving",
    "Cómodo pero puede haber tráfico y calles cortadas", "#ef4444")

  /** TRANSPORT_MODES and getTransportModeConfig. */
  function GetTransportModeConfig(m: TransportMode): (c: TransportModeConfig)
    ensures c.mode == m
    ensures c.googleMapsParam == m.Name()
    ensures c.speedKmH > 0
  {
    match m
    case Walking => WalkingConfig
    case Bicycling => BicyclingConfig
    case Transit => TransitConfig
    case Driving => DrivingConfig
  }

  function Speed(m: TransportMode): (s: real)
    ensures s > 0.0
  {
    GetTransportModeConfig(m).speedKmH as real
  }

  /** The average speeds in km/h. */
  lemma {:induction false} Speeds()
    ensures Speed(Walking) == 5.0 && Speed(Bicycling) == 15.0
    ensures Speed(Transit) == 20.0 && Speed(Driving) == 30.0
  {
  }

  /** calculateEstimatedTime: whole minutes, rounded up, to cover distanceKm at the mode's speed. */
  function CalculateEstimatedTime(distanceKm: real, m: TransportMode): (minutes: int)
    ensures distanceKm / Speed(m) * 60.0 <= minutes as real < distanceKm / Speed(m) * 60.0 + 1.0
    ensures distanceKm == 0.0 ==> minutes == 0
    ensures distanceKm >= 0.0 ==> minutes >= 0
  {
    Ceil(distanceKm / Speed(m) * 60.0)
  }

  /** A longer distance never takes less time. */
  lemma {:induction false} EstimatedTimeMonotone(d1: real, d2: real, m: TransportMode)
    requires d1 <= d2
    ensures CalculateEstimatedTime(d1, m) <= CalculateEstimatedTime(d2, m)
  {
    var s := Speed(m);
    assert d1 / s <= d2 / s;
    CeilMonotone(d1 / s * 60.0, d2 / s * 60.0);
  }

  /** For a fixed distance a faster mode never takes longer. */
  lemma {:induction false} FasterModeNotSlower(d: real, fast: TransportMode, slow: TransportMode)
    requires d >= 0.0
    requires Speed(slow) <= Speed(fast)
    ensures CalculateEstimatedTime(d, fast) <= CalculateEstimatedTime(d, slow)
  {
    var sf, ss := Speed(fast), Speed(slow);
    DivAntitone(d, ss, sf);
    CeilMonotone(d / sf * 60.0, d / ss * 60.0);
  }

  /** Dividing by a larger positive number gives no more. */
  lemma {:induction false} DivAntitone(d: real, a: real, b: real)
    requires d >= 0.0 && 0.0 < a <= b
    ensures d / b <= d / a
  {
    var p, q := d / a, d / b;
    assert p * a == d && q * b == d;
    assert p >= 0.0 && q >= 0.0;
    assert p * b >= p * a;
  }

  /** Driving is never slower than transit, transit than cycling, cycling than walking. */
  lemma {:induction false} ModeOrder(d: real)
    requires d >= 0.0
    ensures CalculateEstimatedTime(d, Driving) <= CalculateEstimatedTime(d, Transit)
    ensures CalculateEstimatedTime(d, Transit) <= CalculateEstimatedTime(d, Bicycling)
    ensures CalculateEstimatedTime(d, Bicycling) <= CalculateEstimatedTime(d, Walking)
  {
    FasterModeNotSlower(d, Driving, Transit);
    FasterModeNotSlower(d, Transit, Bicycling);
    FasterModeNotSlower(d, Bicycling, Walking);
  }

  /**
   * formatEstimatedTime: under an hour "{m} min"; otherwise the whole hours h
   * and the remaining minutes r, with minutes = 60·h + r and 0 <= r < 60,
   * written "{h}h {r}min", or "{h}h" when r is 0.
   */
  function FormatEstimatedTime(minutes: int): (r: string)
    ensures minutes < 60 ==> r == IntToString(minutes) + " min"
    ensures minutes >= 60 ==> exists h: nat, rest: nat ::
      h >= 1 && rest < 60 && minutes == 60 * h + rest &&
      r == NatToString(h) + "h" + (if rest > 0 then " " + NatToString(rest) + "min" else "")
  {
    if minutes < 60 then IntToString(minutes) + " min"
    else
      var hours := minutes / 60;
      var mins := Rem(minutes, 60);
      assert minutes == 60 * hours + mins && hours >= 1 && 0 <= mins < 60;
      var text := NatToString(hours) + "h" + (if mins > 0 then " " + NatToString(mins) + "min" else "");
      assert text == NatToString(hours) + "h" + (if mins > 0 then " " + NatToString(mins) + "min" else "");
      text
  }
}
