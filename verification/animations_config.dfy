/**
 * The catalogue of festival animations and the query that picks the ones
 * running at a given instant. An instant is a count of milliseconds in
 * local time; a window starts at its start date and start time and lasts
 * its duration in minutes. The enable flags of the catalogue can be
 * switched and persisted in a key-value store.
 */
module AnimationsConfig {
  import opened Wrappers
  import opened StableSort

  /** How an animation is drawn. */
  datatype RenderKind = Canvas | Lottie | Css | Svg

  datatype Date = Date(year: int, month: int, day: int)
  datatype Time = Time(hour: int, minute: int)

  /** One window: `endDate` is stored but never read by the query. */
  datatype Schedule = Schedule(startDate: Date, endDate: Date, startTime: Time, duration: int, target: Option<string>)

  datatype AnimationConfig = AnimationConfig(
    id: string, name: string, kind: RenderKind, enabled: bool, priority: int,
    description: string, schedule: seq<Schedule>)

  /** A copy of an entry tagged with the window that made it active. */
  datatype ActiveAnimation = ActiveAnimation(config: AnimationConfig, currentSchedule: Schedule)

  /** Days from 1970-01-01 to the given date of the proleptic Gregorian calendar. */
  function DaysFromCivil(y: int, m: int, d: int): int {
    var y' := if m <= 2 then y - 1 else y;
    var era := y' / 400;
    var yoe := y' - era * 400;
    var mp := (m + 9) % 12;
    var doy := (153 * mp + 2) / 5 + d - 1;
    var doe := yoe * 365 + yoe / 4 - yoe / 100 + doy;
    era * 146097 + doe - 719468
  }

  /** Minutes from the epoch to the given local date and time. */
  function MinuteStamp(y: int, mo: int, d: int, h: int, mi: int): int {
    DaysFromCivil(y, mo, d) * 1440 + h * 60 + mi
  }

  /** `new Date(startDate + ' ' + startTime)`, in milliseconds. */
  function WindowStart(s: Schedule): int {
    MinuteStamp(s.startDate.year, s.startDate.month, s.startDate.day, s.startTime.hour, s.startTime.minute) * 60000
  }

  function WindowEnd(s: Schedule): int {
    WindowStart(s) + s.duration * 60000
  }

  /** The window contains the instant, both ends included. */
  predicate InWindow(s: Schedule, now: int) {
    WindowStart(s) <= now <= WindowEnd(s)
  }

  /** The active copies one entry contributes through the windows of `ws`, in order. */
  function WindowEntries(c: AnimationConfig, ws: seq<Schedule>, now: int): (r: seq<ActiveAnimation>)
    ensures |r| <= |ws|
  {
    if ws == [] then []
    else
      WindowEntries(c, ws[..|ws| - 1], now)
        + (if InWindow(ws[|ws| - 1], now) then [ActiveAnimation(c, ws[|ws| - 1])] else [])
  }

  /** The unsorted result: enabled entries in catalogue order, each once per window containing `now`. */
  function ActiveEntries(cfg: seq<AnimationConfig>, now: int): seq<ActiveAnimation> {
    if cfg == [] then []
    else
      var c := cfg[|cfg| - 1];
      ActiveEntries(cfg[..|cfg| - 1], now) + (if c.enabled then WindowEntries(c, c.schedule, now) else [])
  }

  /** Higher priority first; the sort is stable, so equal priorities keep their order. */
  function PriorityRank(a: ActiveAnimation): Rank {
    Rank(a.config.priority, 0.0)
  }

  /** The result of the query, as a function of the catalogue and the instant. */
  function ActiveAnimations(cfg: seq<AnimationConfig>, now: int): (r: seq<ActiveAnimation>)
    ensures multiset(r) == multiset(ActiveEntries(cfg, now))
  {
    Sort(ActiveEntries(cfg, now), PriorityRank)
  }

  lemma {:induction false} WindowEntriesMember(c: AnimationConfig, ws: seq<Schedule>, now: int, e: ActiveAnimation)
    ensures e in WindowEntries(c, ws, now) <==> e.config == c && e.currentSchedule in ws && InWindow(e.currentSchedule, now)
    decreases |ws|
  {
    if ws != [] {
      WindowEntriesMember(c, ws[..|ws| - 1], now, e);
      assert ws == ws[..|ws| - 1] + [ws[|ws| - 1]];
    }
  }

  /**
   * A copy is among the unsorted entries exactly when its entry is in the
   * catalogue and enabled and its window is one of the entry's and contains
   * the instant.
   */
  lemma {:induction false} ActiveEntriesMember(cfg: seq<AnimationConfig>, now: int, e: ActiveAnimation)
    ensures e in ActiveEntries(cfg, now) <==>
      e.config in cfg && e.config.enabled && e.currentSchedule in e.config.schedule && InWindow(e.currentSchedule, now)
    decreases |cfg|
  {
    if cfg != [] {
      var c := cfg[|cfg| - 1];
      ActiveEntriesMember(cfg[..|cfg| - 1], now, e);
      WindowEntriesMember(c, c.schedule, now, e);
      assert cfg == cfg[..|cfg| - 1] + [c];
    }
  }

  /**
   * The query returns the same copies: each enabled entry once per window
   * that contains the instant, both ends of a window included. In
   * particular a disabled entry never appears.
   */
  lemma {:induction false} ActiveAnimationsMember(cfg: seq<AnimationConfig>, now: int, e: ActiveAnimation)
    ensures e in ActiveAnimations(cfg, now) <==>
      e.config in cfg && e.config.enabled && e.currentSchedule in e.config.schedule && InWindow(e.currentSchedule, now)
  {
    ActiveEntriesMember(cfg, now, e);
    var s := ActiveEntries(cfg, now);
    assert multiset(Sort(s, PriorityRank)) == multiset(s);
    assert e in Sort(s, PriorityRank) <==> e in multiset(Sort(s, PriorityRank));
  }

  /** The query's result is ordered by priority, highest first, and equal priorities keep catalogue-then-window order. */
  lemma {:induction false} ActiveAnimationsOrdered(cfg: seq<AnimationConfig>, now: int, p: int)
    ensures Ordered(ActiveAnimations(cfg, now), PriorityRank)
    ensures WithRank(ActiveAnimations(cfg, now), PriorityRank, Rank(p, 0.0))
         == WithRank(ActiveEntries(cfg, now), PriorityRank, Rank(p, 0.0))
  {
    SortOrdered(ActiveEntries(cfg, now), PriorityRank);
    SortStable(ActiveEntries(cfg, now), PriorityRank, Rank(p, 0.0));
  }

  /** One window of one day. */
  function OneDay(m: int, d: int, h: int, mi: int, duration: int): Schedule {
    Schedule(Date(2026, m, d), Date(2026, m, d), Time(h, mi), duration, None)
  }

  const MascletaWindow := Schedule(Date(2026, 3, 1), Date(2026, 3, 19), Time(14, 0), 5, None)
  const DespertaFirst := OneDay(2, 22, 7, 0, 30)
  const DespertaSecond := OneDay(2, 22, 7, 30, 30)

  /** The catalogue, in declaration order. */
  const Catalogue: seq<AnimationConfig> := [
    AnimationConfig("mascleta", "Mascletà", Canvas, true, 1,
      "Explosiones de pólvora con humo de colores", [MascletaWindow]),
    AnimationConfig("ofrenda", "Ofrenda de Flores", Lottie, true, 2,
      "Flores flotando hacia la Plaza de la Virgen",
      [OneDay(3, 17, 15, 30, 570), OneDay(3, 18, 15, 30, 570)]),
    AnimationConfig("cabalgata", "Cabalgata del Fuego", Canvas, true, 3,
      "Desfile de fuego y demonios", [OneDay(3, 19, 19, 0, 120)]),
    AnimationConfig("crema", "Cremà", Canvas, true, 10,
      "Quema de todas las fallas",
      [Schedule(Date(2026, 3, 19), Date(2026, 3, 19), Time(20, 0), 120, Some("infantil")),
       Schedule(Date(2026, 3, 19), Date(2026, 3, 19), Time(22, 0), 180, Some("grande"))]),
    AnimationConfig("castillo", "Castillo de Fuegos Artificiales", Canvas, true, 4,
      "Espectáculo pirotécnico nocturno",
      [OneDay(3, 16, 23, 59, 30), OneDay(3, 17, 23, 59, 30)]),
    AnimationConfig("espectaculoNocturno", "Espectáculo Pirotécnico Nocturno", Canvas, true, 3,
      "Fuegos artificiales nocturnos",
      [OneDay(2, 28, 23, 59, 20), OneDay(3, 1, 20, 0, 20), OneDay(3, 6, 23, 59, 20),
       OneDay(3, 7, 23, 59, 20), OneDay(3, 8, 20, 0, 20), OneDay(3, 12, 20, 30, 20),
       OneDay(3, 13, 23, 59, 20), OneDay(3, 14, 23, 59, 20)]),
    AnimationConfig("lAlba", "L'Alba de las Fallas", Canvas, true, 6,
      "Espectáculo pirotécnico especial del alba", [OneDay(3, 15, 23, 59, 30)]),
    AnimationConfig("nitDelFoc", "Nit del Foc", Canvas, true, 5,
      "Espectáculo pirotécnico especial", [OneDay(3, 18, 23, 59, 45)]),
    AnimationConfig("desperta", "Despertà", Canvas, true, 1,
      "Petardos por las calles al amanecer", [DespertaFirst, DespertaSecond]),
    AnimationConfig("crida", "Crida", Lottie, true, 2,
      "Inicio monumental de las festividades", [OneDay(2, 22, 19, 30, 60)]),
    AnimationConfig("cabalgataDelNinot", "Cabalgata del Ninot", Lottie, true, 2,
      "Desfile de ninots artísticos", [OneDay(2, 28, 17, 30, 180)]),
    AnimationConfig("planta", "Plantà", Css, true, 1,
      "Montaje de monumentos falleros",
      [Schedule(Date(2026, 3, 15), Date(2026, 3, 15), Time(9, 0), 1440, Some("infantil")),
       Schedule(Date(2026, 3, 16), Date(2026, 3, 16), Time(8, 0), 1440, Some("grande"))])
  ]

  function Ids(cfg: seq<AnimationConfig>): seq<string> {
    seq(|cfg|, i requires 0 <= i < |cfg| => cfg[i].id)
  }

  /** getAllAnimations on the initial catalogue: all twelve entries, in declaration order. */
  lemma {:induction false} CatalogueEntries()
    ensures |Catalogue| == 12
    ensures Ids(Catalogue) == ["mascleta", "ofrenda", "cabalgata", "crema", "castillo", "espectaculoNocturno",
      "lAlba", "nitDelFoc", "desperta", "crida", "cabalgataDelNinot", "planta"]
    ensures forall i, j :: 0 <= i < j < |Catalogue| ==> Catalogue[i].id != Catalogue[j].id
  {
  }

  /** Every window of the catalogue lasts a positive number of minutes. */
  lemma {:induction false} CatalogueDurationsPositive(i: int, k: int)
    requires 0 <= i < |Catalogue| && 0 <= k < |Catalogue[i].schedule|
    ensures Catalogue[i].schedule[k].duration > 0
    ensures WindowStart(Catalogue[i].schedule[k]) < WindowEnd(Catalogue[i].schedule[k])
  {
  }

  /**
   * The mascletà window is built from its start date only: it runs on
   * 1 March 2026 from 14:00 to 14:05 and on no later day, although its end
   * date is the 19th.
   */
  lemma {:induction false} MascletaOnlyOnTheFirst(now: int)
    ensures InWindow(MascletaWindow, now) <==>
      MinuteStamp(2026, 3, 1, 14, 0) * 60000 <= now <= MinuteStamp(2026, 3, 1, 14, 5) * 60000
    ensures !InWindow(MascletaWindow, MinuteStamp(2026, 3, 2, 14, 0) * 60000)
  {
  }

  /** At 07:30 on 22 February both despertà windows contain the instant, so the entry appears twice. */
  lemma {:induction false} DespertaTwiceAtHalfPastSeven()
    ensures InWindow(DespertaFirst, MinuteStamp(2026, 2, 22, 7, 30) * 60000)
    ensures InWindow(DespertaSecond, MinuteStamp(2026, 2, 22, 7, 30) * 60000)
    ensures WindowEntries(Catalogue[8], Catalogue[8].schedule, MinuteStamp(2026, 2, 22, 7, 30) * 60000)
      == [ActiveAnimation(Catalogue[8], DespertaFirst), ActiveAnimation(Catalogue[8], DespertaSecond)]
  {
    var c := Catalogue[8];
    var now := MinuteStamp(2026, 2, 22, 7, 30) * 60000;
    assert c.schedule == [DespertaFirst, DespertaSecond];
    assert c.schedule[..1] == [DespertaFirst];
    assert [DespertaFirst][..0] == [];
  }

  /** The first index whose entry has the given id: the record lookup `animationsConfig[id]`. */
  function IndexOf(cfg: seq<AnimationConfig>, id: string): (r: Option<nat>)
    ensures r.Some? ==> r.value < |cfg| && cfg[r.value].id == id
    ensures r.None? <==> forall i :: 0 <= i < |cfg| ==> cfg[i].id != id
  {
    if cfg == [] then None
    else if cfg[0].id == id then Some(0)
    else
      match IndexOf(cfg[1..], id)
      case None => None
      case Some(k) => Some(k + 1)
  }

  /** The storage key of an entry's flag. */
  function StorageKey(id: string): string {
    "animation_" + id + "_enabled"
  }

  /** `enabled.toString()`. */
  function BoolText(b: bool): string {
    if b then "true" else "false"
  }

  /**
   * loadAnimationState: a saved "true" is true and any other saved text is
   * false; with nothing saved the answer is true whatever the catalogue
   * says, because the fallback is `enabled || true`.
   */
  function LoadState(storage: map<string, string>, cfg: seq<AnimationConfig>, id: string): (r: bool)
    ensures StorageKey(id) in storage ==> (r <==> storage[StorageKey(id)] == "true")
    ensures StorageKey(id) !in storage ==> r
  {
    if StorageKey(id) in storage then storage[StorageKey(id)] == "true"
    else
      (match IndexOf(cfg, id) case Some(i) => cfg[i].enabled case None => false) || true
  }

  /** A flag written by the toggle reads back as written. */
  lemma {:induction false} StoredFlagRoundTrip(storage: map<string, string>, cfg: seq<AnimationConfig>, id: string, b: bool)
    ensures LoadState(storage[StorageKey(id) := BoolText(b)], cfg, id) == b
  {
  }

  /** The catalogue with one entry's flag set. */
  function WithEnabled(cfg: seq<AnimationConfig>, i: nat, enabled: bool): (r: seq<AnimationConfig>)
    requires i < |cfg|
    ensures |r| == |cfg| && r[i].enabled == enabled
    ensures r[i] == cfg[i].(enabled := enabled)
    ensures forall j :: 0 <= j < |cfg| && j != i ==> r[j] == cfg[j]
  {
    cfg[i := cfg[i].(enabled := enabled)]
  }

  /** The module-level catalogue and the browser's key-value store. */
  class AnimationRegistry {
    var config: seq<AnimationConfig>
    var storage: map<string, string>

    constructor(saved: map<string, string>)
      ensures config == Catalogue && storage == saved
    {
      config := Catalogue;
      storage := saved;
    }

    /**
     * getActiveAnimations: one pass over the entries and, for each enabled
     * one, over its windows, collecting a tagged copy per window that
     * contains `now`; then the stable sort by priority.
     */
    method GetActiveAnimations(now: int) returns (r: seq<ActiveAnimation>)
      ensures r == ActiveAnimations(config, now)
    {
      var acc: seq<ActiveAnimation> := [];
      for i := 0 to |config|
        invariant acc == ActiveEntries(config[..i], now)
      {
        var c := config[i];
        assert config[..i + 1][..i] == config[..i];
        if c.enabled {
          for j := 0 to |c.schedule|
            invariant acc == ActiveEntries(config[..i], now) + WindowEntries(c, c.schedule[..j], now)
          {
            var s := c.schedule[j];
            assert c.schedule[..j + 1][..j] == c.schedule[..j];
            if WindowStart(s) <= now && now <= WindowStart(s) + s.duration * 60000 {
              acc := acc + [ActiveAnimation(c, s)];
            }
          }
          assert c.schedule[..|c.schedule|] == c.schedule;
        }
      }
      assert config[..|config|] == config;
      r := Sort(acc, PriorityRank);
    }

    /** toggleAnimation: an unknown id changes nothing; a known one sets its flag and persists it. */
    method ToggleAnimation(id: string, enabled: bool)
      modifies this
      ensures IndexOf(old(config), id).None? ==> config == old(config) && storage == old(storage)
      ensures IndexOf(old(config), id).Some? ==> (
        && config == WithEnabled(old(config), IndexOf(old(config), id).value, enabled)
        && storage == old(storage)[StorageKey(id) := BoolText(enabled)])
    {
      var k := IndexOf(config, id);
      if k.Some? {
        config := WithEnabled(config, k.value, enabled);
        storage := storage[StorageKey(id) := BoolText(enabled)];
      }
    }

    /** loadAllAnimationStates: every entry takes the flag its stored state gives; the store is not written. */
    method LoadAllAnimationStates()
      modifies this
      ensures |config| == |old(config)| && storage == old(storage)
      ensures forall i :: 0 <= i < |config| ==>
        config[i] == old(config[i]).(enabled := LoadState(storage, old(config), old(config[i]).id))
    {
      var original := config;
      for i := 0 to |config|
        invariant |config| == |original| && storage == old(storage)
        invariant forall j :: 0 <= j < i ==>
          config[j] == original[j].(enabled := LoadState(storage, original, original[j].id))
        invariant forall j :: i <= j < |config| ==> config[j] == original[j]
      {
        config := config[i := config[i].(enabled := LoadState(storage, original, config[i].id))];
      }
    }
  }
}
