/** The records the program passes around: a falla, a stop of a route, route statistics. */
module Types {
  import opened Wrappers
  import opened Geo

  /** The ten category names a falla can carry. */
  datatype Category =
    | Municipal | Especial | Experimental | Primera | Segunda | Tercera
    | CategoriaA | CategoriaB | EspecialInfantil | Evento
  {
    /** The category as the string the program compares and displays. */
    function Name(): string {
      match this
      case Municipal => "Municipal"
      case Especial => "Especial"
      case Experimental => "Experimental"
      case Primera => "Primera"
      case Segunda => "Segunda"
      case Tercera => "Tercera"
      case CategoriaA => "CategoriaA"
      case CategoriaB => "CategoriaB"
      case EspecialInfantil => "EspecialInfantil"
      case Evento => "Evento"
    }
  }

  /**
   * A falla. `fallaType` is the optional `type` field; the data carries
   * 'adulta' and 'infantil' there, the declared type names 'grande' and
   * 'infantil', so the model keeps the raw string. The absent boolean flags
   * are false.
   */
  datatype Falla = Falla(
    id: int,
    name: string,
    lat: real,
    lng: real,
    address: Option<string>,
    category: Category,
    theme: string,
    facts: string,
    artist: Option<string>,
    fundacion: Option<int>,
    distintivo: Option<string>,
    fallaType: Option<string>,
    isExperimental: bool,
    isMunicipal: bool)
  {
    function Position(): Coord {
      Coord(lat, lng)
    }

    /** `type === 'infantil'` */
    predicate IsInfantil() {
      fallaType == Some("infantil")
    }
  }

  /** The festival events that have a map animation. */
  datatype AnimationType = Cabalgata | Ofrenda | Mascleta | Crema
  {
    function Name(): string {
      match this
      case Cabalgata => "cabalgata"
      case Ofrenda => "ofrenda"
      case Mascleta => "mascletà"
      case Crema => "cremà"
    }
  }

  /** A falla on a planned route, with the leg that leads to it. */
  datatype RouteStop = RouteStop(
    falla: Falla,
    distanceFromPrevious: Option<real>,
    estimatedWalkingTime: Option<int>)

  /** getRouteStats' result; the distance is already rendered with two decimals. */
  datatype RouteStats = RouteStats(
    totalStops: int,
    totalDistance: string,
    totalTime: int,
    estimatedDuration: string)

  /** `stop.distanceFromPrevious || 0` */
  function LegDistance(s: RouteStop): real {
    s.distanceFromPrevious.GetOr(0.0)
  }

  /** `stop.estimatedWalkingTime || 0` */
  function LegTime(s: RouteStop): int {
    s.estimatedWalkingTime.GetOr(0)
  }

  /** A stop with no leg information, as a falla passed where a stop is expected. */
  function AsStop(f: Falla): RouteStop {
    RouteStop(f, None, None)
  }

  function Ids(fs: seq<Falla>): (r: seq<int>)
    ensures |r| == |fs|
    ensures forall k :: 0 <= k < |fs| ==> r[k] == fs[k].id
  {
    seq(|fs|, k requires 0 <= k < |fs| => fs[k].id)
  }

  lemma {:induction false} IdsCons(f: Falla, fs: seq<Falla>)
    ensures Ids([f] + fs) == [f.id] + Ids(fs)
  {
  }

  function StopFallas(route: seq<RouteStop>): (r: seq<Falla>)
    ensures |r| == |route|
    ensures forall k :: 0 <= k < |route| ==> r[k] == route[k].falla
  {
    seq(|route|, k requires 0 <= k < |route| => route[k].falla)
  }
}
