# Fallas València 2026 map — a Dafny model

This project models the logic of a web map of the Fallas festival of
València, 2026 edition. The map shows the fallas (the monuments of the
festival) with type and category filters and a search box. It also offers:

- recommended routes and a route planner that orders the chosen fallas by
  nearest neighbour;
- links that hand a route to Google Maps, Apple Maps or Waze;
- turn-by-turn navigation inside the app;
- export and import of routes as JSON and GPX files, and share links;
- a calendar widget that drives what is shown: the state of each falla
  (before the plantà, on display, burning, gone), the parades, the flower
  offering with its filling mantle, and the map animations of the day.

The model has one Dafny module per source file, plus helper modules:

- `Wrappers` for optional values;
- `Text`, `JsNumber` and `NumberText` for the JavaScript string and number
  operations used;
- `Seqs` for `filter` and `find`;
- `StableSort` for `Array.prototype.sort`;
- `Geo` for coordinates;
- `Types` for the shared records.

Pure source code becomes functions and lemmas. Code that changes state step
by step becomes classes whose methods are proved against specification
functions:

- the store;
- the navigation session;
- the animation manager and the event-animation service;
- the animation registry with its persisted flags;
- the calendar, search box and gallery widgets.

The modelling choices are these:

- The haversine distance and the bearing are function parameters. All that
  is known of them is that a distance is non-negative and a bearing lies in
  [0, 360).
- Instants are milliseconds computed from (year, month, day, hour, minute).
- Percentages and distances are exact reals.
- Geolocation callbacks, timers and intervals are explicit methods that the
  caller invokes.
- localStorage is a `map<string, string>`.
- Map layers, canvases and timer ids are opaque integer handles.

The model reproduces the source's quirks as they are written:

- the end date of an animation window is never read;
- a falla burns until midnight of the 19th;
- an ofrenda hour of 0 becomes 16;
- a flag that was never stored loads as enabled;
- the duration filter reads "45-60 min" as 45 hours;
- the navigation snapshot tests arrival on rounded metres, while the
  arrival timer tests unrounded metres.

## Model

| member | source | states |
|---|---|---|
| Seqs.Filter | src/components/Map/MapContainer.tsx:183 | `Array.prototype.filter`: the kept elements satisfy the predicate, every element that satisfies it is kept, and the order is the input's |
| Seqs.Find | src/stores/useAppStore.ts:73 | `Array.prototype.find`: some element exactly when one satisfies the predicate, and then the first such element |
| Text.JoinContains | src/components/Search/SearchBar.tsx:42 | every part of a joined string occurs in it |
| Text.Split | src/services/routeShareService.ts:90 | `String.prototype.split` on one character: at least one part, none holding the separator |
| Text.SplitJoin | src/services/routeShareService.ts:11 | splitting a string joined on a character that no part holds gives back the parts |
| Text.JoinSplit | src/services/routeShareService.ts:90 | joining the parts of a split on the same character gives back the string |
| Text.Trim | src/components/Search/SearchBar.tsx:34-36 | `String.prototype.trim`: the result neither starts nor ends with white space |
| Text.TrimBlank | src/components/Search/SearchBar.tsx:34 | a string trims to empty exactly when all its characters are white space |
| Text.ToLower | src/components/Search/SearchBar.tsx:36 | `toLowerCase`: same length, each character lowered, ASCII letters shifted by 32 |
| Text.TrimToLowerBlank | src/components/Search/SearchBar.tsx:34-36 | lowering a string does not change whether it is blank |
| Text.ContainsTransitive | src/components/Search/SearchBar.tsx:45-50 | a substring of a substring is a substring |
| Text.StartsWithContains | src/components/Search/SearchBar.tsx:63 | a prefix of a string occurs in it |
| Text.NatToString | src/components/Calendar/CalendarWidget.tsx:139 | decimal digits of a natural number, with no leading zero |
| Text.DigitsValueOfNatToString | src/components/Calendar/CalendarWidget.tsx:38-42 | the digits of a number read back as that number |
| Text.LeadingDigits | src/services/routeShareService.ts:92 | the longest run of digits at the start of a string |
| Text.ParseIntNatToString | src/services/routeShareService.ts:92 | `parseInt` of a number's digits followed by a non-digit is that number |
| Text.ToBase36 | src/services/routeShareService.ts:113 | `toString(36)`: one digit below 36, one more digit per factor of 36 |
| Text.ToBase36Length | src/services/routeShareService.ts:113 | a number below 36 to the k has at most k base-36 digits |
| Text.Take | src/services/routeShareService.ts:113 | `substring(0, n)`: the first n characters, or all when there are fewer |
| JsNumber.Floor | src/types/transportMode.ts:79 | `Math.floor`: the greatest integer not above x |
| JsNumber.Ceil | src/types/transportMode.ts:62 | `Math.ceil`: the least integer not below x |
| JsNumber.Round | src/types/transportMode.ts:80 | `Math.round`: the integer within half of x, halves rounded up |
| JsNumber.CeilMonotone | src/types/transportMode.ts:62 | Math.ceil never decreases as its argument grows |
| JsNumber.Rem | src/services/routeOptimizer.ts:86 | the `%` operator: truncating remainder, with the sign of the dividend |
| JsNumber.ToInt32 | src/services/routeShareService.ts:111 | `hash & hash`: the 32-bit two's-complement value congruent to x modulo 2 to the 32 |
| JsNumber.ToInt32Congruent | src/services/routeShareService.ts:110-111 | values congruent modulo 2 to the 32 wrap to the same 32-bit value |
| JsNumber.ShiftLeft5 | src/services/routeShareService.ts:110 | `hash << 5` on a 32-bit value: a 32-bit value, the 32-bit wrap of 32 times the input |
| NumberText.ToFixed2 | src/services/routeOptimizer.ts:78 | `toFixed(2)`: a sign exactly for negative values, then at least one whole digit and two decimals |
| NumberText.FixedValue | src/services/routeExportService.ts:154 | the value `toFixed(2)` writes is within half a hundredth of x |
| NumberText.ParseFloatOfFixed | src/services/routeExportService.ts:154-161 | `parseFloat` of the `toFixed(2)` text followed by a non-digit tail reads back the rounded value |
| StableSort.Sort | src/config/animationsConfig.ts:470 | `Array.prototype.sort` by a rank: a permutation of the input |
| StableSort.SortOrdered | src/config/animationsConfig.ts:470 | the sorted list is ordered by rank |
| StableSort.SortStable | src/components/Search/SearchBar.tsx:76-82 | the sort is stable: the elements of each rank keep their input order |
| Text.IntToString | src/components/Calendar/CalendarWidget.tsx:139 | `toString()` of an integer: a minus sign exactly for negative numbers |
| Types.Ids | src/types/index.ts:3-4 | the ids of a list of fallas, one per falla, in order |
| Types.IdsCons | src/types/index.ts:3-4 | the ids of a list with one falla in front are that falla's id in front |
| Types.StopFallas | src/types/index.ts:34-37 | the falla of every stop of a route, in order |
| FallaState.GetFallaState | src/utils/fallaStateUtils.ts:20-73 | every falla is shown; it is under construction exactly before its plantà day (15 for infantil, 16 otherwise), burning exactly on the 19th from its cremà hour (20 for infantil, 22 otherwise), gone exactly after the 19th, and active otherwise; only the active state has no icon |
| FallaState.BurnsUntilMidnight | src/utils/fallaStateUtils.ts:46-64 | on the 19th a falla burns from its cremà hour to the end of the day: the post-cremà test for the 19th never decides anything |
| FallaState.FebruaryDaysArePostCrema | src/utils/fallaStateUtils.ts:56 | the February days 22 and 28, read as days of March, give the post-cremà state |
| FallaState.GetCategoryIcon | src/utils/fallaStateUtils.ts:92-116 | an infantil falla gets the child icon, with a crown when its category contains Especial; any other falla gets its category's icon, or the palette for a category outside the table |
| FallaState.GetFallaMapIcon | src/utils/fallaStateUtils.ts:78-87 | the map shows the category icon while the falla is active and the state's icon otherwise, never an empty icon |
| FallaState.ShouldShowBurningAnimation | src/utils/fallaStateUtils.ts:121-132 | the burning animation shows exactly when the state is burning |
| FallaState.GetFallaStateClass | src/utils/fallaStateUtils.ts:137-144 | the class is falla- followed by the state's name |
| FallaState.StateClassDistinguishes | src/utils/fallaStateUtils.ts:137-144 | different states give different classes |
| FallaState.GetFallaMarkerColor | src/utils/fallaStateUtils.ts:149-161 | amber before the plantà, red while burning, grey after the cremà; while active green for infantil and blue otherwise |
| FallaState.MarkerColorIsStatusColor | src/utils/fallaStateUtils.ts:156-159 | the marker has the state's status colour except for an active falla grande, which is blue rather than green |
| TransportModes.GetTransportModeConfig | src/types/transportMode.ts:15-70 | every mode has its own entry, sent to Google Maps under its own name, with a positive speed |
| TransportModes.Speed | src/types/transportMode.ts:9-47 | every mode's speed is positive |
| TransportModes.Speeds | src/types/transportMode.ts:20-47 | walking 5, cycling 15, transit 20 and driving 30 km/h |
| TransportModes.CalculateEstimatedTime | src/types/transportMode.ts:57-63 | the estimate is the time at the mode's speed in minutes, rounded up to a whole minute; no distance takes no time, and no distance takes negative time |
| TransportModes.EstimatedTimeMonotone | src/types/transportMode.ts:57-63 | a longer distance never takes less time |
| TransportModes.FasterModeNotSlower | src/types/transportMode.ts:57-63 | for a fixed distance a faster mode never takes longer |
| TransportModes.DivAntitone | src/types/transportMode.ts:62 | dividing by a larger speed gives no more |
| TransportModes.ModeOrder | src/types/transportMode.ts:15-63 | driving is never slower than transit, transit than cycling, cycling than walking |
| TransportModes.FormatEstimatedTime | src/types/transportMode.ts:75-82 | under an hour the minutes and " min"; otherwise the whole hours and the remaining minutes below 60, leaving the minutes out when they are 0 |
| RouteOptimizer.NearestIndex | src/services/routeOptimizer.ts:37-50 | the index of a remaining falla at the least distance, the first of any that tie |
| RouteOptimizer.Without | src/services/routeOptimizer.ts:52 | splicing one falla out leaves the others, one fewer, as a multiset |
| RouteOptimizer.Greedy | src/services/routeOptimizer.ts:30-63 | the plan has one stop per falla given |
| RouteOptimizer.GreedyStep | src/services/routeOptimizer.ts:36-61 | the plan is the nearest falla's leg followed by the plan for the rest from that falla |
| RouteOptimizer.StopFallasCons | src/services/routeOptimizer.ts:55-59 | the fallas of a route with one stop in front are that stop's falla in front |
| RouteOptimizer.Order | src/services/routeOptimizer.ts:36-61 | the picks are as many as the fallas given |
| RouteOptimizer.GreedyFollowsOrder | src/services/routeOptimizer.ts:52-60 | the stops of the plan are the picks, in order |
| RouteOptimizer.OrderPermutation | src/services/routeOptimizer.ts:33-52 | the picks are the input, reordered |
| RouteOptimizer.GreedyPermutation | src/services/routeOptimizer.ts:25-64 | the plan visits every falla of the input exactly as often as it occurs there |
| RouteOptimizer.GreedyLegs | src/services/routeOptimizer.ts:53-60 | every stop records the distance from the point it is reached from and the time to cover it in the chosen mode |
| RouteOptimizer.LegAt | src/services/routeOptimizer.ts:53-60 | stop k records the leg from the point it is reached from |
| RouteOptimizer.OrderNearest | src/services/routeOptimizer.ts:40-52 | each pick is at least as close to the point it is reached from as every later pick |
| RouteOptimizer.GreedyNearest | src/services/routeOptimizer.ts:36-61 | from the point each stop is reached from, no stop visited later is strictly closer |
| RouteOptimizer.FirstPickTieBreak | src/services/routeOptimizer.ts:46 | among equally near fallas the first pick is the earliest in the input |
| RouteOptimizer.OptimizeRoute | src/services/routeOptimizer.ts:25-64 | the loop returns the greedy plan, the empty one for no fallas |
| RouteOptimizer.Advance | src/services/routeOptimizer.ts:52-60 | one turn of the outer loop keeps the route built plus the plan still to come equal to the whole plan |
| RouteOptimizer.AppendStop | src/services/routeOptimizer.ts:55-59 | moving the next stop onto the route built so far keeps the whole |
| RouteOptimizer.FindNearest | src/services/routeOptimizer.ts:37-50 | the inner loop, with a strict comparison against a minimum starting at Infinity, finds the first nearest falla and its distance |
| RouteOptimizer.SumsConcat | src/services/routeOptimizer.ts:71-74 | the totals of two joined routes are the sums of their totals |
| RouteOptimizer.SumDistance | src/services/routeOptimizer.ts:71-74 | the total distance is never negative when no leg is |
| RouteOptimizer.SumTime | src/services/routeOptimizer.ts:71-74 | the total time is never negative when no leg is |
| RouteOptimizer.GreedySumsNonNegative | src/services/routeOptimizer.ts:67-81 | a planned route's total distance and time are never negative |
| RouteOptimizer.FormatTime | src/services/routeOptimizer.ts:84-88 | from one hour on the text is the hours and the remaining minutes below 60, and below an hour just the minutes |
| RouteOptimizer.FormatTimeDiffersFromEstimate | src/services/routeOptimizer.ts:84-88 | below an hour this text has no space before min, unlike the transport mode formatter |
| RouteOptimizer.GetRouteStats | src/services/routeOptimizer.ts:67-82 | the stats count the stops and give the sums of the recorded distances with two decimals and of the times, missing values counting 0, with the formatted duration |
| InAppNavigation.BearingToDirection | src/services/inAppNavigationService.ts:210-217 | the direction named is exactly the one of the eight 45-degree sectors the bearing falls in, north wrapping round 0 |
| InAppNavigation.Snapshot | src/services/inAppNavigationService.ts:100-142 | the snapshot heads to the current stop, counts the stops done and in total, rounds the distance to metres, rounds the time up at 83 m per minute, and says arrived, with the arrival text, exactly under 50 rounded metres, else the walking instruction with metres and direction |
| InAppNavigation.ArrivedAtTheStop | src/services/inAppNavigationService.ts:121-138 | standing on the stop counts as arrived, with 0 metres and 0 minutes left |
| InAppNavigation.SnapshotArrivedThreshold | src/services/inAppNavigationService.ts:121-138 | the snapshot reports arrival exactly below 49.5 unrounded metres |
| InAppNavigation.ArrivalTestsDisagree | src/services/inAppNavigationService.ts:121-163 | every arrival the snapshot reports also arms the timer, but at 49.6 m the timer is armed while the snapshot still asks to walk 50 m |
| InAppNavigation.InAppNavigationService.constructor | src/services/inAppNavigationService.ts:17-23 | a new service has no route, no position, index 0, no watch, no callback and nothing sent |
| InAppNavigation.InAppNavigationService.CurrentSnapshot | src/services/inAppNavigationService.ts:100-103 | a snapshot exists exactly when there is a position and the index is on the route |
| InAppNavigation.InAppNavigationService.UpdateState | src/services/inAppNavigationService.ts:100-142 | the callback, if any, receives the current snapshot; nothing else changes |
| InAppNavigation.InAppNavigationService.StartLocationTracking | src/services/inAppNavigationService.ts:73-95 | with geolocation a new watch is registered and stored; without it nothing changes |
| InAppNavigation.InAppNavigationService.StartNavigation | src/services/inAppNavigationService.ts:28-45 | an empty route changes nothing; otherwise the session restarts at the first stop, from the user's position, with the new callback, sends exactly one snapshot, and opens one new watch exactly when geolocation exists, an earlier watch staying live |
| InAppNavigation.InAppNavigationService.StopNavigation | src/services/inAppNavigationService.ts:50-58 | the watch is cleared and the route, index and callback are forgotten; the position stays |
| InAppNavigation.InAppNavigationService.NextStop | src/services/inAppNavigationService.ts:63-68 | skipping moves to the following stop and sends a snapshot, and never moves past the last stop |
| InAppNavigation.InAppNavigationService.CheckArrival | src/services/inAppNavigationService.ts:147-174 | exactly one timer is armed when the walker is under 50 unrounded metres from the stop, none otherwise |
| InAppNavigation.InAppNavigationService.PositionUpdate | src/services/inAppNavigationService.ts:80-87 | the watch stores the new position, sends a snapshot and runs the arrival check |
| InAppNavigation.InAppNavigationService.ArrivalTimerFires | src/services/inAppNavigationService.ts:164-172 | the timer advances to the next stop with a snapshot, the watch kept; or, at the last stop, ends the session and clears the session's watch, if any |
| AppStore.WithAdded | src/stores/useAppStore.ts:71-79 | the falla is appended exactly when no falla with its id is on the route; otherwise the route is unchanged |
| AppStore.WithAddedKeepsIdsDistinct | src/stores/useAppStore.ts:71-79 | adding never introduces a repeated id |
| AppStore.WithAddedAllKeepsIdsDistinct | src/stores/useAppStore.ts:71-79 | whatever run of additions built it, the route has pairwise distinct ids |
| AppStore.WithAddedAllSnoc | src/stores/useAppStore.ts:71-79 | a run of additions followed by one more is one longer run |
| AppStore.WithAddedAllDistinct | src/stores/useAppStore.ts:71-79 | adding fallas with distinct new ids keeps them all, in order |
| AppStore.WithRemoved | src/stores/useAppStore.ts:80-86 | removing drops exactly the fallas with that id and keeps the rest in order |
| AppStore.WithRemovedKeepsIdsDistinct | src/stores/useAppStore.ts:80-86 | removing keeps the remaining ids distinct |
| AppStore.AppStore.constructor | src/stores/useAppStore.ts:60-126 | the store starts at the Plaza del Ayuntamiento, walking, on day 15 at 12h in real mode, with nothing selected, no route, no filter and every panel closed |
| AppStore.AppStore.SetSelectedFalla | src/stores/useAppStore.ts:67 | the selected falla is set and the panel is open exactly when a falla is selected; every other field of the store keeps its value |
| AppStore.AppStore.SetIsPanelOpen | src/stores/useAppStore.ts:111 | only the panel flag changes; every other field of the store keeps its value |
| AppStore.AppStore.AddToRoute | src/stores/useAppStore.ts:71-79 | the answer says whether the falla was appended, which happens exactly when its id was absent; the route becomes the route with the falla added, the ids stay distinct, and every other field keeps its value |
| AppStore.AppStore.RemoveFromRoute | src/stores/useAppStore.ts:80-86 | the fallas with that id go, the ids stay distinct and the optimised route is discarded; every other field keeps its value |
| AppStore.AppStore.ClearRoute | src/stores/useAppStore.ts:87 | both the route and the optimised route become empty; every other field keeps its value |
| AppStore.AppStore.SetOptimizedRoute | src/stores/useAppStore.ts:89 | only the optimised route changes; every other field of the store keeps its value |
| AppStore.AppStore.SetSelectedDay | src/stores/useAppStore.ts:98 | only the day changes; every other field of the store keeps its value |
| AppStore.AppStore.SetSelectedHour | src/stores/useAppStore.ts:99 | only the hour changes; every other field of the store keeps its value |
| AppStore.AppStore.SetClockMode | src/stores/useAppStore.ts:103 | only the clock mode changes; every other field of the store keeps its value |
| AppStore.AppStore.SetUserLocation | src/stores/useAppStore.ts:63 | only the user's position changes; every other field of the store keeps its value |
| AppStore.AppStore.SetTransportMode | src/stores/useAppStore.ts:93 | only the transport mode changes; every other field of the store keeps its value |
| AppStore.AppStore.SetCurrentAnimation | src/stores/useAppStore.ts:107 | only the current animation changes; every other field of the store keeps its value |
| AppStore.AppStore.SetIsRouteBuilderOpen | src/stores/useAppStore.ts:113 | only the route builder flag changes; every other field of the store keeps its value |
| AppStore.AppStore.SetIsFiltersOpen | src/stores/useAppStore.ts:117 | only the filters flag changes; every other field of the store keeps its value |
| AppStore.AppStore.SetFallaTypeFilter | src/stores/useAppStore.ts:119 | only the type filter changes; every other field of the store keeps its value |
| AppStore.AppStore.SetCategoryFilter | src/stores/useAppStore.ts:121 | only the category filter changes; every other field of the store keeps its value |
| AppStore.AppStore.SetIsNavigating | src/stores/useAppStore.ts:125 | only the navigation flag changes; every other field of the store keeps its value |
| CabalgataRoutes.NinotSchedule | src/data/cabalgataRoutes.ts:13-26 | the Ninot parade is on the 28th from 17h to 20h, over six points |
| CabalgataRoutes.FuegoSchedule | src/data/cabalgataRoutes.ts:27-38 | the fire parade is on the 19th from 19h to 20h, over four points |
| CabalgataRoutes.OfrendaRoutesWrapAndMeet | src/data/cabalgataRoutes.ts:39-73 | both offering routes run on 17 and 18 March from 15h to 1h of the next day, so their end hour is below their start hour, and both end at the Plaza de la Virgen |
| CabalgataRoutes.EveryRouteHasASegment | src/data/cabalgataRoutes.ts:12-71 | every route has at least two points to draw |
| CabalgataManager.IsNinotActive | src/components/CabalgataAnimation/CabalgataManager.tsx:20-25 | the Ninot parade runs exactly on the 28th from 17h to 20h, both included |
| CabalgataManager.IsFuegoActive | src/components/CabalgataAnimation/CabalgataManager.tsx:28-33 | the fire parade runs exactly on the 19th from 19h to 20h, both included |
| CabalgataManager.NeverBothActive | src/components/CabalgataAnimation/CabalgataManager.tsx:20-33 | the two parades never run together |
| OfrendaManager.IsRoutesActive | src/components/OfrendaAnimation/OfrendaManager.tsx:17-31 | the processions are drawn on 17 March from 15h, on 18 March up to 1h and again from 15h, and on no other day |
| OfrendaManager.RoutesActiveFollowsRouteSchedule | src/components/OfrendaAnimation/OfrendaManager.tsx:17-31 | the processions are drawn exactly while the offering routes' own day range and hours, wrapping past midnight, say they run |
| OfrendaManager.ShowVirgen | src/components/OfrendaAnimation/OfrendaManager.tsx:34-36 | the Virgin is shown from 17 March on |
| OfrendaManager.VirgenFillPercentage | src/components/OfrendaAnimation/OfrendaManager.tsx:39-76 | the mantle is at most 100 % full and never below 0 for a clock hour; empty before 17 March and before 15h on the 17th; growing by 50/9.5 per hour from 15h up to 50 % on the 17th; at 50 % on the 18th until 15h, then growing to 100 %; full from the 19th |
| OfrendaManager.FillAtMidnightOfThe17th | src/components/OfrendaAnimation/OfrendaManager.tsx:43-54 | at 23h on 17 March the mantle is 400/9.5 % full, below the half |
| OfrendaManager.FillNonDecreasing | src/components/OfrendaAnimation/OfrendaManager.tsx:39-76 | from 16 to 19 March the mantle never loses flowers as time goes on |
| AnimationManager.EngineIds | src/services/animationManager.ts:170-176 | one state per engine, in map order |
| AnimationManager.EngineIdsConcat | src/services/animationManager.ts:7 | the ids of two engine lists joined are their ids joined |
| AnimationManager.KeepActive | src/services/animationManager.ts:43-47 | the stopping pass keeps only engines whose id is active |
| AnimationManager.KeepActiveAbsent | src/services/animationManager.ts:43-47 | the stopping pass adds no id |
| AnimationManager.KeepActiveKeeps | src/services/animationManager.ts:43-47 | an engine whose id is active survives the stopping pass |
| AnimationManager.KeepActiveOrdered | src/services/animationManager.ts:43-47 | the stopping pass is the filter of the engines by activity, so its result is a subsequence of the engines in their order |
| AnimationManager.RemoveId | src/services/animationManager.ts:102 | deleting an id leaves no engine with that id |
| AnimationManager.RemoveIdConcat | src/services/animationManager.ts:102 | deleting from a joined list deletes from each part |
| AnimationManager.RemoveIdAbsent | src/services/animationManager.ts:99-103 | deleting an id that has no engine changes nothing |
| AnimationManager.RemoveIdKeeps | src/services/animationManager.ts:98-110 | deleting keeps the ids distinct, adds no id and keeps every remaining engine's canvas |
| AnimationManager.RemoveIdOk | src/services/animationManager.ts:98-110 | every remaining engine keeps its canvas when the deleted id's canvas goes |
| AnimationManager.StartedFrom | src/services/animationManager.ts:50-93 | every started engine is for an active canvas entry and sits under that entry's id |
| AnimationManager.StartedCovers | src/services/animationManager.ts:50-88 | after the starting pass every active canvas entry whose engine builds has an engine |
| AnimationManager.UpdateReconciles | src/services/animationManager.ts:37-58 | after an update every engine belongs to an active animation, every still-active engine was kept, and every active canvas animation whose engine builds has one |
| AnimationManager.Notify | src/services/animationManager.ts:188-191 | each registered callback, in registration order, receives the same states |
| AnimationManager.AnimationManager.constructor | src/services/animationManager.ts:6-17 | a new manager has no engines, no canvases, no container, no interval and no callbacks |
| AnimationManager.AnimationManager.Initialize | src/services/animationManager.ts:22-24 | initialising sets the container; every other part of the manager keeps its value |
| AnimationManager.AnimationManager.ActiveStates | src/services/animationManager.ts:170-176 | one state per engine, in the engines' order |
| AnimationManager.AnimationManager.OnStateChange | src/services/animationManager.ts:181-183 | registering appends the callback; every other part of the manager keeps its value |
| AnimationManager.AnimationManager.NotifyCallbacks | src/services/animationManager.ts:188-191 | every callback is called once, in order, with the engines' states; only the notification record changes |
| AnimationManager.AnimationManager.StopAnimation | src/services/animationManager.ts:98-110 | the engine with that id goes; its canvas goes only when attached to the page; the ids stay distinct; nothing but the engines and the canvases changes |
| AnimationManager.AnimationManager.StartCanvasAnimation | src/services/animationManager.ts:63-93 | without a container nothing at all changes; otherwise the entry gets a canvas if it had none and an engine under its id unless building it throws, replacing in place an engine under that id; nothing but the engines and the canvases changes |
| AnimationManager.AnimationManager.StopInactive | src/services/animationManager.ts:42-47 | the stopping loop leaves exactly the engines whose id is active, in order, and detaches exactly the attached canvases of the inactive engines; nothing else changes |
| AnimationManager.AnimationManager.StopIfInactive | src/services/animationManager.ts:43-47 | one step of the stopping loop stops the current engine exactly when its id is inactive, detaching its canvas, and keeps the loop invariant |
| AnimationManager.AnimationManager.StartMissing | src/services/animationManager.ts:49-54 | the starting loop appends exactly the started engines and attaches exactly the canvases of the entries it tried; nothing else changes |
| AnimationManager.AnimationManager.StartIfMissing | src/services/animationManager.ts:50-54 | one step of the starting loop starts the current entry exactly when it is a canvas entry without an engine, and keeps the loop invariant |
| AnimationManager.AnimationManager.UpdateAnimations | src/services/animationManager.ts:37-58 | without a container nothing changes; otherwise the whole new state is the update of the old one: the still-active old engines followed by the started ones, the inactive engines' canvases detached, the tried entries' canvases attached, and every callback told the resulting states |
| AnimationManager.AnimationManager.StopStep | src/services/animationManager.ts:43-47 | one step of the stopping loop keeps or drops exactly the current engine |
| AnimationManager.AnimationManager.StopAll | src/services/animationManager.ts:135-139 | every engine is stopped and exactly the attached canvases of the stopped engines go; nothing else changes and no canvas is created |
| AnimationManager.AnimationManager.StopAutoUpdate | src/services/animationManager.ts:160-165 | the interval, if any, is cleared and none is live; nothing else changes |
| AnimationManager.AnimationManager.StartAutoUpdate | src/services/animationManager.ts:144-155 | any previous interval is cleared, one fresh interval is the only live one, and the state is then that of one update |
| AnimationManager.AnimationManager.AutoUpdateTick | src/services/animationManager.ts:149-151 | the interval's tick leaves the state of one update |
| AnimationManager.AnimationManager.SetCurrentTime | src/services/animationManager.ts:29-32 | the instant changes and the state is then that of one update at that instant |
| AnimationManager.AnimationManager.ForceAnimation | src/services/animationManager.ts:196-200 | a canvas entry is started whatever its schedule, changing only the engines and the canvases; other kinds and a missing container change nothing |
| AnimationManager.AnimationManager.Cleanup | src/services/animationManager.ts:205-209 | no engine, no interval and no callback remain, and exactly the attached canvases of the old engines go; the container, the instant and the timer counter keep their values |
| AnimationManager.StartedStep | src/services/animationManager.ts:50-54 | the starting pass over one more entry adds at most that entry's engine |
| AnimationManager.AllOkGrow | src/services/animationManager.ts:82 | adding canvases keeps every engine's canvas |
| AnimationManager.SetEngine | src/services/animationManager.ts:88 | setting an engine keeps the existing ids, appending the new id only when it is absent |
| AnimationManager.SetEngineAbsent | src/services/animationManager.ts:88 | setting an engine under a new id appends it |
| AnimationManager.SetEngineKeeps | src/services/animationManager.ts:88 | setting an engine keeps the ids distinct and keeps every engine's canvas |
| AnimationManager.SetEngineOk | src/services/animationManager.ts:82-88 | after setting, every engine has a canvas |
| AnimationsConfig.WindowEntries | src/config/animationsConfig.ts:456-466 | one entry contributes at most one copy per window |
| AnimationsConfig.WindowEntriesMember | src/config/animationsConfig.ts:456-466 | a copy comes from an entry's windows exactly when it is that entry tagged with one of its windows that contains the instant |
| AnimationsConfig.ActiveEntriesMember | src/config/animationsConfig.ts:453-467 | before sorting, a copy is collected exactly when its entry is in the catalogue and enabled and its window is one of the entry's and contains the instant, both ends included |
| AnimationsConfig.ActiveAnimations | src/config/animationsConfig.ts:450-471 | the query returns the collected copies rearranged, none lost or added |
| AnimationsConfig.ActiveAnimationsMember | src/config/animationsConfig.ts:450-471 | the query returns exactly those copies: a disabled entry never appears, and an entry appears once per window containing the instant |
| AnimationsConfig.ActiveAnimationsOrdered | src/config/animationsConfig.ts:470 | the result is ordered by priority, highest first, and copies of equal priority keep catalogue-then-window order |
| AnimationsConfig.CatalogueEntries | src/config/animationsConfig.ts:476-478 | the catalogue has twelve entries with distinct ids, in declaration order |
| AnimationsConfig.CatalogueDurationsPositive | src/config/animationsConfig.ts:9-414 | every window of the catalogue lasts a positive time |
| AnimationsConfig.MascletaOnlyOnTheFirst | src/config/animationsConfig.ts:457-458 | the mascletà window is built from its start date only, so it runs on 1 March 2026 from 14:00 to 14:05 and not on 2 March at 14:00 |
| AnimationsConfig.DespertaTwiceAtHalfPastSeven | src/config/animationsConfig.ts:456-466 | at 07:30 on 22 February both despertà windows contain the instant, so the entry is collected twice, in window order |
| AnimationsConfig.IndexOf | src/config/animationsConfig.ts:484 | the lookup finds an entry with the id, or there is none |
| AnimationsConfig.LoadState | src/config/animationsConfig.ts:493-496 | a saved flag is true exactly when it is the text true; with nothing saved the answer is always true |
| AnimationsConfig.StoredFlagRoundTrip | src/config/animationsConfig.ts:483-496 | a flag written by the toggle reads back as written |
| AnimationsConfig.WithEnabled | src/config/animationsConfig.ts:485 | only the chosen entry's flag changes |
| AnimationsConfig.AnimationRegistry.constructor | src/config/animationsConfig.ts:9 | the registry starts from the catalogue and the saved store |
| AnimationsConfig.AnimationRegistry.GetActiveAnimations | src/config/animationsConfig.ts:450-471 | the nested loops and the sort return the active copies of the query |
| AnimationsConfig.AnimationRegistry.ToggleAnimation | src/config/animationsConfig.ts:483-488 | an unknown id changes nothing; a known one sets its flag and stores the text of the flag under its key |
| AnimationsConfig.AnimationRegistry.LoadAllAnimationStates | src/config/animationsConfig.ts:501-506 | every entry takes the flag its saved state gives, and nothing is written to the store |
| EventsData.EventDays | src/data/events.ts:10-32 | the programme has an event exactly on 1 to 19 March and on 22 and 28 February |
| EventsData.EventTags | src/data/events.ts:11-31 | 22 February is the despertà, 28 February the cabalgata, 1 to 16 March the mascletà, 17 and 18 March the ofrenda, 19 March the cremà |
| EventsData.EveryTagKnown | src/data/events.ts:11-31 | every day's animation tag is one of the five known tags |
| EventAnimations.Staggered | src/services/eventAnimations.ts:63-67 | n callbacks, the i-th delayed by i times the spacing and running the i-th task |
| EventAnimations.CabalgataSchedulesFourDemons | src/services/eventAnimations.ts:62-67 | the cabalgata schedules four demons 1.5 s apart, all on the cabalgata route |
| EventAnimations.MascletaSchedulesTwelveExplosions | src/services/eventAnimations.ts:269-274 | the mascletà schedules twelve explosions 0.4 s apart at the Plaza del Ayuntamiento |
| EventAnimations.CremaSchedulesFiveFires | src/services/eventAnimations.ts:332-346 | the cremà schedules one burning falla per location, 2 s apart, in order |
| EventAnimations.FlowerProgress | src/services/eventAnimations.ts:115-124 | the flower progress is between 0 and 100, 0 before and at 16h, 100 at 23h and after |
| EventAnimations.FlowerProgressMonotone | src/services/eventAnimations.ts:115-124 | the progress never goes back as the hour advances |
| EventAnimations.OfrendaHour | src/services/eventAnimations.ts:433 | a missing hour and hour 0 both become 16, any other hour is kept |
| EventAnimations.RemoveFirst | src/services/eventAnimations.ts:248-251 | removing a marker drops one copy of it when listed and leaves the list alone otherwise |
| EventAnimations.OfrendaProcessionHours | src/services/eventAnimations.ts:196-198 | the ofrenda schedules its three processions exactly for hours 16 to 23 and for a missing hour or hour 0 |
| EventAnimations.ClearedIdempotent | src/services/eventAnimations.ts:16-36 | clearing twice is clearing once |
| EventAnimations.ClearedKeepsHandles | src/services/eventAnimations.ts:16-36 | clearing keeps every handle in use below the counter and only takes layers off the map and stops intervals, never adding any |
| EventAnimations.WithMarkerKeepsHandles | src/services/eventAnimations.ts:88-103 | listing a fresh marker and its interval keeps every handle in use below the counter |
| EventAnimations.TriggeredKeepsHandles | src/services/eventAnimations.ts:427-444 | each animation keeps every handle in use below the counter, never moves the counter back, appends its schedule to the pending queue when there is a map, and leaves none of the previously listed layers on the map |
| EventAnimations.FiredKeepsHandles | src/services/eventAnimations.ts:64-66 | running a scheduled callback keeps every handle in use below the counter, never moves the counter back and never lengthens the queue |
| EventAnimations.EventAnimationService.constructor | src/services/eventAnimations.ts:7-10 | a new service has no map, no layers, no intervals and nothing scheduled |
| EventAnimations.EventAnimationService.SetMap | src/services/eventAnimations.ts:12-14 | setting the map changes nothing else, and every handle in use stays below the counter |
| EventAnimations.EventAnimationService.NewHandle | src/services/eventAnimations.ts:54-59 | the handle returned is the counter, which advances by one; it is on no layer or interval list, and nothing else changes |
| EventAnimations.EventAnimationService.ClearAnimations | src/services/eventAnimations.ts:16-36 | the three lists are emptied, their layers leave the map only when there is a map, their intervals stop, pending timeouts stay; the whole new state is the cleared old state |
| EventAnimations.EventAnimationService.RemoveMarkers | src/services/eventAnimations.ts:17-23 | every listed marker leaves the map when there is one, and the marker list empties; nothing else changes |
| EventAnimations.EventAnimationService.RemovePolylines | src/services/eventAnimations.ts:25-31 | every listed line leaves the map when there is one, and the line list empties; nothing else changes |
| EventAnimations.EventAnimationService.ClearIntervals | src/services/eventAnimations.ts:33-35 | every listed interval stops running, and the interval list empties; nothing else changes |
| EventAnimations.EventAnimationService.Schedule | src/services/eventAnimations.ts:63-67 | the loop of setTimeout calls appends exactly the staggered callbacks |
| EventAnimations.EventAnimationService.AnimateCabalgataDelFuego | src/services/eventAnimations.ts:39-68 | without a map nothing changes; otherwise the old animations are cleared, the route is the only polyline and four demons are scheduled; every handle in use stays below the counter |
| EventAnimations.EventAnimationService.CreateMovingFireDemon | src/services/eventAnimations.ts:70-104 | without a map nothing changes; otherwise a new marker and its interval are listed and running, and nothing else changes |
| EventAnimations.EventAnimationService.AnimateOfrendaFlores | src/services/eventAnimations.ts:107-199 | without a map nothing changes; otherwise the old animations are cleared, the virgin is the only marker with the hour's progress, and the processions are scheduled only within 16 to 23 |
| EventAnimations.EventAnimationService.CreateOfrendaProcession | src/services/eventAnimations.ts:201-257 | without a map nothing changes; otherwise three processions are scheduled 2 s apart towards the virgin |
| EventAnimations.EventAnimationService.StartProcession | src/services/eventAnimations.ts:213-255 | a procession's timeout lists a new marker and its running interval, and nothing else changes; without a map nothing happens |
| EventAnimations.EventAnimationService.ProcessionArrives | src/services/eventAnimations.ts:243-252 | at the end of its walk the procession's interval stops, its marker leaves the map when there is one and one copy leaves the marker list |
| EventAnimations.EventAnimationService.AnimateMascleta | src/services/eventAnimations.ts:261-275 | without a map nothing changes; otherwise the old animations are cleared and twelve explosions are scheduled |
| EventAnimations.EventAnimationService.CreateFireworkExplosion | src/services/eventAnimations.ts:277-324 | an explosion is drawn but never listed, so clearing does not remove it; its own removal is scheduled after 1.2 s |
| EventAnimations.EventAnimationService.AnimateCrema | src/services/eventAnimations.ts:327-347 | without a map nothing changes; otherwise the old animations are cleared and the five fires are scheduled |
| EventAnimations.EventAnimationService.CreateBurningFalla | src/services/eventAnimations.ts:349-424 | a burning falla is a listed marker; nothing happens without a map |
| EventAnimations.EventAnimationService.RemoveLayerNow | src/services/eventAnimations.ts:319-323 | the explosion's removal takes the layer off the map when there is one |
| EventAnimations.EventAnimationService.RunTimeout | src/services/eventAnimations.ts:64-66 | a scheduled callback leaves the queue and does its task, whether or not the animations were cleared in between; the whole new state is that of the fired callback |
| EventAnimations.EventAnimationService.TriggerAnimation | src/services/eventAnimations.ts:427-444 | each type runs its own animation and the whole new state is that animation's; the ofrenda uses the hour or 16, and the pending queue grows by exactly that animation's schedule |
| EventAnimations.FireDemon.constructor | src/services/eventAnimations.ts:91 | a demon starts on the first point of the route |
| EventAnimations.FireDemon.Tick | src/services/eventAnimations.ts:92-101 | each tick moves to the next point, and from the last point back to the first |
| EventAnimations.ProcessionWalker.constructor | src/services/eventAnimations.ts:234-235 | a procession starts at step 0 |
| EventAnimations.ProcessionWalker.Tick | src/services/eventAnimations.ts:237-253 | a tick takes one step while fewer than 25 were taken, and otherwise reports the arrival |
| EventDispatch.Decide | src/hooks/useEventAnimations.ts:27-77 | no event clears; the cabalgata triggers from 20h, the ofrenda from 16h with the hour capped at 24, the mascletà at 14h exactly, the cremà from 22h; every other hour and every other tag clears |
| EventDispatch.OfrendaHourPassed | src/hooks/useEventAnimations.ts:45-55 | the ofrenda passes the selected hour within 16 to 23 and 24 after that, the same on both ofrenda days |
| EventDispatch.DispatchByDay | src/hooks/useEventAnimations.ts:25-77 | day by day: mascletà at 14h on 1 to 16 March, ofrenda from 16h on 17 and 18 March, cremà from 22h on 19 March, cabalgata from 20h on 28 February, nothing on 22 February or a day without an event |
| EventDispatch.OfrendaHourNeverDefaulted | src/hooks/useEventAnimations.ts:47-51 | the hour the effect passes to the ofrenda is between 16 and 24, so the service never falls back to its default hour |
| EventDispatch.RunEffect | src/hooks/useEventAnimations.ts:23-78 | the service's whole new state is the cleared old state for a clearing decision and the triggered animation's state for a trigger; a trigger with a map appends exactly that animation's schedule; every handle in use stays below the counter |
| EventDispatch.DispatchFor | src/hooks/useEventAnimations.ts:24-30 | a day without an event in the programme clears the animations |
| NavigationLinks.PairText | src/services/navigationService.ts:40-49 | a coordinate pair is never empty text |
| NavigationLinks.Interior | src/services/navigationService.ts:38 | the stops strictly between the first and the last, in order, none for two stops or fewer |
| NavigationLinks.WaypointStops | src/services/navigationService.ts:37-39 | the waypoints are the interior stops with valid coordinates, in route order: each kept stop is valid and each valid interior stop is kept |
| NavigationLinks.WaypointTexts | src/services/navigationService.ts:40 | one coordinate pair per waypoint, in order |
| NavigationLinks.WaypointsText | src/services/navigationService.ts:37-51 | the joined waypoints are empty exactly when no waypoint remains |
| NavigationLinks.JoinStartsWithFirst | src/services/navigationService.ts:41 | a join is at least as long as its first part |
| NavigationLinks.GoogleTravelMode | src/services/navigationService.ts:56-62 | every mode is sent to Google Maps under its own name, the one the transport mode table lists |
| NavigationLinks.AppleDirFlag | src/services/navigationService.ts:93-98 | walking and cycling become w, transit r, driving d |
| NavigationLinks.GoogleMapsURL | src/services/navigationService.ts:28-65 | a link is opened exactly when the route is non-empty, the user's position is valid and the last stop is valid |
| NavigationLinks.GoogleLinkFrame | src/services/navigationService.ts:47-62 | a directions link begins with its origin and destination part and ends with the travel mode |
| NavigationLinks.GoogleLinkWaypoints | src/services/navigationService.ts:51-53 | the waypoints parameter is absent when there are no waypoints and present, whole, otherwise |
| NavigationLinks.GoogleOriginAndDestination | src/services/navigationService.ts:44-62 | the opened link starts from the user's position, leads to the last stop and ends with the mode |
| NavigationLinks.GoogleWaypointsParam | src/services/navigationService.ts:37-53 | without waypoints the link has no waypoints parameter; otherwise every valid interior stop's pair is in it |
| NavigationLinks.NavigateToStopURL | src/services/navigationService.ts:133-147 | the link runs from the user's position to the stop and ends with the mode |
| NavigationLinks.NavigateToStopIsOneStopRoute | src/services/navigationService.ts:133-147 | for valid positions, navigating to a stop opens the same link as the whole-route directions for the one-stop route |
| NavigationLinks.AppleMapsURL | src/services/navigationService.ts:82-103 | Apple Maps opens for every non-empty route, with no coordinate check |
| NavigationLinks.AppleDestinationIsLast | src/services/navigationService.ts:89-100 | Apple directions lead to the last stop and end with the mode's flag |
| NavigationLinks.WazeURL | src/services/navigationService.ts:70-77 | Waze opens for every non-empty route |
| NavigationLinks.WazeUsesFirstStop | src/services/navigationService.ts:73-74 | two routes with the same first position give the same Waze link |
| NavigationLinks.PreferredURL | src/services/navigationService.ts:108-121 | a link is opened exactly when the route is non-empty and either the device is an Apple one or Google's checks pass |
| NavigationLinks.PreferredOnAppleDevice | src/services/navigationService.ts:114-117 | a user agent naming an iPad, iPhone or iPod anywhere gets Apple Maps |
| NavigationLinks.PreferredElsewhere | src/services/navigationService.ts:114-120 | any other user agent gets Google Maps |
| RouteShare.StopIds | src/services/routeShareService.ts:11 | one id per stop, the k-th stop's falla id, in order |
| RouteShare.Texts | src/services/routeShareService.ts:11 | one decimal text per id |
| RouteShare.TextsAt | src/services/routeShareService.ts:11 | the k-th text is the decimal form of the k-th id |
| RouteShare.GenerateShareURL | src/services/routeShareService.ts:8-14 | an empty route gives the bare origin; any other gives the origin, ?route=, the ids joined by commas and &optimized=true |
| RouteShare.ParamOf | src/services/routeShareService.ts:77-78 | a query field without = is a name with an empty value |
| RouteShare.ParamOfAssignment | src/services/routeShareService.ts:77-78 | a field name=value, whose name holds no =, reads as that name and that value |
| RouteShare.FirstValue | src/services/routeShareService.ts:77-78 | a value found is that of the first non-empty field carrying the name; nothing is found exactly when no non-empty field carries it |
| RouteShare.GetParam | src/services/routeShareService.ts:77-78 | `URLSearchParams.get`: the value of the first non-empty field of the query with that name, and none exactly when no non-empty field has that name |
| RouteShare.FieldId | src/services/routeShareService.ts:92-93 | a field yields an id only when it parses to a number in 1..10000 |
| RouteShare.FieldIdOfDigits | src/services/routeShareService.ts:92-93 | a field of digits yields its value when it is non-empty and in 1..10000, and nothing otherwise |
| RouteShare.CollectIds | src/services/routeShareService.ts:89-93 | at most one id per field, each in 1..10000 |
| RouteShare.Present | src/services/routeShareService.ts:93 | a present id is a one-element list, a missing one the empty list |
| RouteShare.FirstFields | src/services/routeShareService.ts:91 | at most the first 50 fields are kept, and fewer are kept whole |
| RouteShare.ParseRoute | src/services/routeShareService.ts:78-98 | a missing or empty parameter, one with a character other than a digit or a comma, or one longer than 500 is refused; an accepted list has 1 to 50 ids, each in 1..10000 |
| RouteShare.ParseRouteFromURL | src/services/routeShareService.ts:76-99 | a query without a route parameter gives nothing; an accepted route has 1 to 50 ids, each in 1..10000 |
| RouteShare.JoinDigits | src/services/routeShareService.ts:11 | ids of at most five digits joined by commas pass the digits-and-commas test and take at most six characters per id |
| RouteShare.NatToStringLength | src/services/routeShareService.ts:83 | a number below 10^k has at most k digits |
| RouteShare.FieldIdOfId | src/services/routeShareService.ts:92-93 | the decimal form of an id in 1..10000 reads back as that id |
| RouteShare.CollectIdsOfTexts | src/services/routeShareService.ts:89-93 | reading the decimal forms of ids in range gives the ids back, in order |
| RouteShare.ShareParamRoundTrip | src/services/routeShareService.ts:83-94 | for 1 to 50 ids in 1..10000 the route parameter passes validation, stays within 299 characters and parses back to the same ids in order |
| RouteShare.ShareRoundTrip | src/services/routeShareService.ts:8-99 | the share link of such a route parses back, from its query, to the route's ids in order |
| RouteShare.RouteParamOfSearch | src/services/routeShareService.ts:77-78 | the query of a share link yields its route value unchanged |
| RouteShare.ShareSearchShape | src/services/routeShareService.ts:13 | a share query is ? followed by its two fields joined by & |
| RouteShare.QueryFields | src/services/routeShareService.ts:77 | a share query splits on & into exactly its two fields |
| RouteShare.CollectIdsConcat | src/services/routeShareService.ts:89-93 | collecting the ids of two lists of fields one after the other is collecting each and concatenating |
| RouteShare.CollectIdsOfField | src/services/routeShareService.ts:92-93 | one field of digits yields its value when in 1..10000 and nothing otherwise |
| RouteShare.ParseRejectsOtherCharacters | src/services/routeShareService.ts:83-86 | a parameter with a semicolon or a space is refused outright |
| RouteShare.HashOf | src/services/routeShareService.ts:104-112 | the hash of a text stays a 32-bit signed integer |
| RouteShare.HashStep | src/services/routeShareService.ts:110-111 | the shift-subtract-add step followed by hash & hash is the 32-bit wrap of 31·h + code unit |
| RouteShare.HashOfPrefix | src/services/routeShareService.ts:108-112 | one more code unit extends the hash by one step of the recurrence |
| RouteShare.HashOfExample | src/services/routeShareService.ts:104-112 | the ids 1 and 2 hash to 48534 |
| RouteShare.Abs | src/services/routeShareService.ts:113 | the absolute value is the number or its negation, never negative |
| RouteShare.ShortCode | src/services/routeShareService.ts:113 | the short code has one to six characters |
| RouteShare.ShortCodeUncut | src/services/routeShareService.ts:113 | the short code is the absolute hash in base 36 whole: one to six characters, so taking the first eight never cuts it |
| RouteShare.HashRoute | src/services/routeShareService.ts:104-114 | the loop over the code units of the dash-joined ids with a 32-bit accumulator returns the short code |
| RouteShare.GenerateShortURL | src/services/routeShareService.ts:19-26 | the short link is the origin, /r/ and the short code, at most nine characters longer than the origin |
| RouteExport.PathLength | src/services/routeExportService.ts:146-153 | the path through the stops in order is never negative, and is 0 for fewer than two stops |
| RouteExport.PathLengthRepeatLast | src/services/routeExportService.ts:148-153 | stopping twice at the same place adds nothing to the path |
| RouteExport.PathLengthAppend | src/services/routeExportService.ts:148-153 | appending a stop adds exactly the leg from the previous last stop to it |
| RouteExport.TotalDistanceText | src/services/routeExportService.ts:154 | the distance text ends with " km" |
| RouteExport.CalculateTotalDistance | src/services/routeExportService.ts:146-155 | the loop over the len−1 consecutive legs returns the path length with two decimals and " km" |
| RouteExport.CalculateTotalTime | src/services/routeExportService.ts:160-165 | parsing the distance text back never gives NaN, and the minutes are the rounded distance at 5 km/h, rounded to the minute |
| RouteExport.TotalMinutes | src/services/routeExportService.ts:160-165 | the minutes reported are never negative |
| RouteExport.TotalMinutesNearPace | src/services/routeExportService.ts:160-165 | the reported minutes are never negative and within 0.56 of 12 minutes per km of path |
| RouteExport.TotalMinutesMonotone | src/services/routeExportService.ts:160-165 | a longer path never reports fewer minutes |
| RouteExport.HundredthsMonotone | src/services/routeExportService.ts:154 | rounding to hundredths is monotone on non-negative values |
| RouteExport.ExportStop | src/services/routeExportService.ts:37-42 | a stop of the payload keeps exactly the id, name, latitude and longitude of its falla |
| RouteExport.ExportStops | src/services/routeExportService.ts:37-42 | one payload stop per route stop, in order |
| RouteExport.ExportToJSON | src/services/routeExportService.ts:27-49 | the payload has version 1.0, the given name, description and creation time, optimized true and the projected stops; it has stats exactly for a non-empty route, with the distance text, the minutes and the number of stops |
| RouteExport.ImportFromJSON | src/services/routeExportService.ts:99-141 | the file is accepted exactly when it is at most 100 KiB, of an allowed or empty MIME type, parses, has a stops list of at most 50 entries and every stop passes the id, name and coordinate tests; an accepted file comes back unchanged |
| RouteExport.ParsedStop | src/services/routeExportService.ts:112 | a payload stop read back has its id, name, latitude and longitude |
| RouteExport.Parsed | src/services/routeExportService.ts:112 | the payload read back has all its stops, in order, and the same header |
| RouteExport.ImportAcceptsExport | src/services/routeExportService.ts:99-141 | the importer accepts what the exporter wrote for at most 50 importable stops in a file of at most 100 KiB, and gives back the route's ids in order |
| RouteExport.ImportRejectsLongRoutes | src/services/routeExportService.ts:120-122 | a route of more than 50 stops is refused whatever else it holds |
| RouteExport.RoutePoints | src/services/routeExportService.ts:77-80 | one route point per stop, the k-th numbered k+1 with the k-th stop's position, name and theme or the default description |
| RouteExport.PartInFrame | src/services/routeExportService.ts:68-82 | every part of a join occurs in a text that frames the join |
| RouteExport.PointHasTitle | src/services/routeExportService.ts:77-78 | a route point carries the stop's numbered title, Parada n: name |
| RouteExport.GpxDocument | src/services/routeExportService.ts:67-82 | the document starts with the XML declaration, the gpx element and the metadata with the route name and time, and ends by closing the rte and gpx elements |
| RouteExport.GpxListsEveryStop | src/services/routeExportService.ts:67-82 | every stop of the route appears in the GPX document as its route point with its numbered title |
| FallasData.GetCategoryFromSeccion | src/data/fallas.ts:30-36 | a section starting with 1 gives Especial, with 2 or 3 Primera, with 4 or 5 Segunda, and anything else, the empty section included, Tercera; each in both directions |
| FallasData.FactsParts | src/data/fallas.ts:39-57 | the facts are the founding, artist, distinction and children's parts, in that order, each present only when its condition holds |
| FallasData.Facts | src/data/fallas.ts:39-57 | at most four facts, and none exactly when no condition holds |
| FallasData.FactsCount | src/data/fallas.ts:39-57 | there is one fact for each condition that holds |
| FallasData.FactsPresence | src/data/fallas.ts:42-57 | the founding fact, recognised by its wording, appears exactly for a truthy founding year, the artist fact exactly for an artist other than empty or Sin artista, the distinction exactly for a non-empty one, and the children's fact exactly for an infantil type; each shown fact carries the record's own value |
| FallasData.FoundingPresence | src/data/fallas.ts:42-45 | a fact starting Fundada en appears exactly for a truthy founding year, and then it is the fact of that year |
| FallasData.ArtistPresence | src/data/fallas.ts:47-49 | a fact starting Artista: appears exactly for an artist other than empty or Sin artista, and then it names that artist |
| FallasData.DistintivoPresence | src/data/fallas.ts:51-53 | a fact starting Distintivo: appears exactly for a non-empty distinction, and then it names it |
| FallasData.InfantilPresence | src/data/fallas.ts:55-57 | the children's fact appears exactly for the infantil type |
| FallasData.FactsKind | src/data/fallas.ts:42-57 | one kind of fact at a time: present exactly when its condition holds |
| FallasData.FactsOrder | src/data/fallas.ts:42-57 | the founding fact, when present, comes first, and the children's fact, when present, comes last |
| FallasData.Bullets | src/data/fallas.ts:59 | one bulleted line per fact, in order, each the fact with the bullet in front |
| FallasData.FactsText | src/data/fallas.ts:59 | no fact gives the empty text |
| FallasData.FactsTextEmpty | src/data/fallas.ts:59 | the facts text is empty exactly when there is no fact, and otherwise starts with the first bulleted fact |
| FallasData.GenerateFacts | src/data/fallas.ts:39-60 | pushing each applicable fact in turn and joining the bullets with <br> gives the facts text of the record's facts |
| FallasData.ToFalla | src/data/fallas.ts:6-21 | a converted record keeps its id and type, gets the category of its section and the generated facts, and has no address and neither flag |
| FallasData.FallasFromJson | src/data/fallas.ts:6-21 | one falla per JSON record, in order, each converted |
| FallasData.FallasAdultas | src/data/fallas.ts:24 | a subsequence of the catalogue holding exactly the fallas typed adulta |
| FallasData.FallasInfantiles | src/data/fallas.ts:27 | a subsequence of the catalogue holding exactly the fallas typed infantil |
| FallasData.AdultasInfantilesSplit | src/data/fallas.ts:24-27 | the two lists together hold at most every falla once, and exactly every falla when each is typed adulta or infantil |
| PredefinedRoutes.CatalogueShape | src/data/predefinedRoutes.ts:16-152 | the catalogue holds eight routes with distinct ids, each with at least one tag and one falla |
| PredefinedRoutes.GetPredefinedRoute | src/data/predefinedRoutes.ts:157-159 | a route is found exactly when one has that id, and the one found is a catalogue route with that id |
| PredefinedRoutes.GetPredefinedRouteOfEach | src/data/predefinedRoutes.ts:157-159 | looking up a catalogue route's id finds that very route |
| PredefinedRoutes.FilterRoutesByTag | src/data/predefinedRoutes.ts:164-168 | the result is a subsequence of the catalogue; each route has a tag containing the query, case-insensitively, and every such route is kept |
| PredefinedRoutes.FilterRoutesByEmptyTag | src/data/predefinedRoutes.ts:164-168 | the empty tag query keeps the whole catalogue |
| PredefinedRoutes.FilterRoutesByDifficulty | src/data/predefinedRoutes.ts:173-175 | the result is a subsequence of the catalogue holding exactly the routes of that difficulty |
| PredefinedRoutes.NoHardRoutes | src/data/predefinedRoutes.ts:173-175 | every route is easy or medium, so asking for hard routes gives none |
| PredefinedRoutes.StartMinutesOf | src/data/predefinedRoutes.ts:182-183 | a duration text that starts with a number n followed by a non-digit counts as n·60 minutes |
| PredefinedRoutes.StartMinutes | src/data/predefinedRoutes.ts:182-183 | a counted duration, when it is a number, is a whole number of hours |
| PredefinedRoutes.MinuteRangeReadAsHours | src/data/predefinedRoutes.ts:182-183 | the express route's 45-60 min is read as 45 hours, 2700 minutes |
| PredefinedRoutes.DecimalHoursTruncated | src/data/predefinedRoutes.ts:182-183 | 2.5 horas is read as 2 hours, 120 minutes |
| PredefinedRoutes.GetRoutesByMaxDuration | src/data/predefinedRoutes.ts:180-186 | the result is a subsequence of the catalogue holding exactly the routes whose counted minutes are at most the bound; a NaN count never fits |
| PredefinedRoutes.KeptIffFits | src/data/predefinedRoutes.ts:180-186 | a catalogue route is returned exactly when its counted minutes fit the bound |
| PredefinedRoutes.ExpressThreshold | src/data/predefinedRoutes.ts:180-186 | the express route is returned only for bounds of 2700 minutes or more |
| RoutesGallery.FallaById | src/components/PredefinedRoutes/PredefinedRoutesGallery.tsx:18 | a falla is found exactly when the catalogue has one with that id, and the one found has that id |
| RoutesGallery.FoundFallas | src/components/PredefinedRoutes/PredefinedRoutesGallery.tsx:17-19 | at most one falla per id, each taken from the catalogue |
| RoutesGallery.FoundFallasIds | src/components/PredefinedRoutes/PredefinedRoutesGallery.tsx:17-19 | the found fallas carry exactly the ids of the route that have a falla, in the route's order |
| RoutesGallery.FoundFallasIdsIn | src/components/PredefinedRoutes/PredefinedRoutesGallery.tsx:17-19 | each found falla carries one of the route's ids |
| RoutesGallery.FoundFallasDistinct | src/components/PredefinedRoutes/PredefinedRoutesGallery.tsx:17-19 | distinct ids give fallas with distinct ids |
| RoutesGallery.CatalogueIdsDistinct | src/components/PredefinedRoutes/PredefinedRoutesGallery.tsx:17 | every catalogue route lists distinct falla ids |
| RoutesGallery.Annotate | src/components/PredefinedRoutes/PredefinedRoutesGallery.tsx:29-33 | one stop per found falla, in order; the first at 0 km and 0 minutes, each later one at 0.5 km and 6 minutes |
| RoutesGallery.AnnotateTotals | src/components/PredefinedRoutes/PredefinedRoutesGallery.tsx:29-33 | a loaded route of n stops totals 0.5·(n−1) km and 6·(n−1) minutes |
| RoutesGallery.DifficultyLabel | src/components/PredefinedRoutes/PredefinedRoutesGallery.tsx:49-56 | the label is empty exactly for a difficulty other than easy, medium and hard |
| RoutesGallery.DifficultyColor | src/components/PredefinedRoutes/PredefinedRoutesGallery.tsx:40-47 | the colour is the default blue exactly for a difficulty other than easy, medium and hard |
| RoutesGallery.CatalogueLabels | src/components/PredefinedRoutes/PredefinedRoutesGallery.tsx:40-56 | every catalogue route gets a label and a colour of its own difficulty |
| RoutesGallery.Gallery.constructor | src/components/PredefinedRoutes/PredefinedRoutesGallery.tsx:9-10 | the gallery starts closed with no route selected |
| RoutesGallery.Gallery.SetIsOpen | src/components/PredefinedRoutes/PredefinedRoutesGallery.tsx:61-82 | the gallery button opens the modal and the overlay or close button closes it, the selected route untouched |
| RoutesGallery.Gallery.SetSelectedRoute | src/components/PredefinedRoutes/PredefinedRoutesGallery.tsx:135-140 | a card selects its route and the detail's overlay or close button deselects it, the modal untouched |
| RoutesGallery.Gallery.AddEach | src/components/PredefinedRoutes/PredefinedRoutesGallery.tsx:26 | adding each falla in turn leaves the route the store would hold after adding them one by one; nothing else in the store changes |
| RoutesGallery.Gallery.LoadPredefinedRoute | src/components/PredefinedRoutes/PredefinedRoutesGallery.tsx:15-38 | when no falla of the route is found nothing changes; otherwise the store's route becomes the found fallas added in turn to an empty route, the optimised route the annotated fallas, and the gallery closes |
| RoutesGallery.LoadedCatalogueRoute | src/components/PredefinedRoutes/PredefinedRoutesGallery.tsx:17-26 | loading a catalogue route puts exactly its found fallas, in list order, on the store's route |
| SearchBar.SplitFieldsOccur | src/components/Search/SearchBar.tsx:37-68 | every piece of a split occurs in the string that was split |
| SearchBar.QueryWords | src/components/Search/SearchBar.tsx:37 | every query word is non-empty and occurs in the query; a query that does not start with a space has at least one word |
| SearchBar.MatchCount | src/components/Search/SearchBar.tsx:49-60 | the count of matching words is at most the number of words; it is positive exactly when some word matches and full exactly when every word matches |
| SearchBar.Score | src/components/Search/SearchBar.tsx:41-71 | a score lies between 0 and 205 plus 10 per word; a name containing the query scores at least 100; a score of 0 means the name does not contain the query and no word occurs in the searchable text |
| SearchBar.NameInSearchable | src/components/Search/SearchBar.tsx:42-45 | a query found in the lower-cased name is also found in the searchable text |
| SearchBar.ScorePositive | src/components/Search/SearchBar.tsx:41-75 | for a query whose words occur in it, a falla scores exactly when one of the words occurs in its name-and-address text |
| SearchBar.Scored | src/components/Search/SearchBar.tsx:73 | a result record carries its falla and that falla's distance from the user |
| SearchBar.ScoredAll | src/components/Search/SearchBar.tsx:39-74 | one result per falla, in catalogue order |
| SearchBar.Matches | src/components/Search/SearchBar.tsx:75 | every kept result scores above zero and comes from the catalogue |
| SearchBar.KeptIffScores | src/components/Search/SearchBar.tsx:39-75 | a falla of the catalogue is among the kept results exactly when its score is positive |
| SearchBar.SearchResults | src/components/Search/SearchBar.tsx:33-83 | there are never more than ten results, and a blank query gives none |
| SearchBar.MatchesAreWordHits | src/components/Search/SearchBar.tsx:33-75 | for a query that is not blank, a falla is matched exactly when one of the query's words occurs in its searchable text |
| SearchBar.SortedPrefix | src/components/Search/SearchBar.tsx:76-83 | the first n of the sorted matches come in rank order and are all matches |
| SearchBar.ResultsAreTopMatches | src/components/Search/SearchBar.tsx:76-83 | the results are the first min(10, #matches) of the sorted matches, in descending score and then ascending distance, and each is a match |
| SearchBar.EqualRanksKeepOrder | src/components/Search/SearchBar.tsx:76-82 | results of equal score and distance keep their catalogue order, because the sort is stable |
| SearchBar.MovedIndex | src/components/Search/SearchBar.tsx:111-120 | ArrowDown moves to the next result but not past the last; ArrowUp moves back and goes to no highlight from the first; an index in range stays in range |
| SearchBar.ArrowUpReachesNone | src/components/Search/SearchBar.tsx:117-119 | pressing ArrowUp more times than the index always ends with nothing highlighted |
| SearchBar.CategoryIcon | src/components/Search/SearchBar.tsx:165-181 | every category gets a non-empty icon |
| SearchBar.CategoryIcons | src/components/Search/SearchBar.tsx:165-181 | of the categories a falla can carry, the four section categories get their own icon and every other one gets the palette |
| SearchBar.SearchBox.constructor | src/components/Search/SearchBar.tsx:9-11 | the box starts with an empty query, closed, with nothing highlighted |
| SearchBar.SearchBox.SelectFalla | src/components/Search/SearchBar.tsx:136-143 | selecting a falla sets it in the store and opens the panel, every other field of the store unchanged, and resets the box |
| SearchBar.SearchBox.InputChange | src/components/Search/SearchBar.tsx:145-149 | typing sets the query, opens the list and clears the highlight |
| SearchBar.SearchBox.Clear | src/components/Search/SearchBar.tsx:151-156 | clearing empties the query, closes the list and clears the highlight |
| SearchBar.SearchBox.ClickOutside | src/components/Search/SearchBar.tsx:88-99 | a press outside closes the list and clears the highlight, keeping the query |
| SearchBar.SearchBox.Focus | src/components/Search/SearchBar.tsx:195 | focusing opens the list exactly when it was open or the query is not blank |
| SearchBar.SearchBox.MouseEnter | src/components/Search/SearchBar.tsx:228 | hovering a result highlights it |
| SearchBar.SearchBox.KeyDown | src/components/Search/SearchBar.tsx:102-134 | with the list closed or empty only Enter on a non-blank query opens it; otherwise the arrows move the highlight, Enter selects the highlighted result if there is one, Escape closes and clears, other keys do nothing; the highlight stays in range |
| CalendarWidget.DisplayHour | src/components/Calendar/CalendarWidget.tsx:29-30 | the shown hour is the real clock's in real mode and the slider's in manual mode |
| CalendarWidget.TimeOfDayLabel | src/components/Calendar/CalendarWidget.tsx:32-35 | the label reads DÍA exactly on day hours (7 to 19) and NOCHE exactly otherwise |
| CalendarWidget.MonthLabel | src/components/Calendar/CalendarWidget.tsx:87 | the month reads FEB exactly for days 22 to 28 and MAR for every other day |
| CalendarWidget.DayOptionDays | src/components/Calendar/CalendarWidget.tsx:93-118 | the selector offers exactly 1 to 19 March plus 22 and 28 February, the February group holding just those two |
| CalendarWidget.DayOptionsAreEventDays | src/components/Calendar/CalendarWidget.tsx:93-118 | a day is offered exactly when the programme has an event for it, and its month label is FEB exactly when it sits in the February group |
| CalendarWidget.EventIndicator | src/components/Calendar/CalendarWidget.tsx:143-147 | the event line appears exactly for a day of the programme and shows that day's description |
| CalendarWidget.PadStart2 | src/components/Calendar/CalendarWidget.tsx:139 | padding to two characters gives length max(2, original) and keeps the original text as its suffix |
| CalendarWidget.HourTextRoundTrip | src/components/Calendar/CalendarWidget.tsx:139 | every slider hour 0..23 is shown as five characters that parse back to the same hour |
| CalendarWidget.Calendar.constructor | src/components/Calendar/CalendarWidget.tsx:18 | the widget starts on the clock's current hour |
| CalendarWidget.Calendar.ClockTick | src/components/Calendar/CalendarWidget.tsx:21-27 | the minute interval sets the real hour from the clock |
| CalendarWidget.Calendar.DayChange | src/components/Calendar/CalendarWidget.tsx:37-39 | choosing a day sets it, and every other field of the store, hour and clock mode included, keeps its value |
| CalendarWidget.Calendar.HourChange | src/components/Calendar/CalendarWidget.tsx:41-47 | moving the slider sets the hour and leaves real mode, every other field of the store unchanged, and the shown hour becomes the slider's |
| CalendarWidget.Calendar.ModeToggle | src/components/Calendar/CalendarWidget.tsx:49-57 | the toggle flips the mode; going to manual keeps the slider, going to real moves the slider to the real hour so both agree; nothing else in the store changes |
| CalendarWidget.Calendar.RealButton | src/components/Calendar/CalendarWidget.tsx:67-76 | the Hora Real button sets real mode with the slider on the real hour; nothing else in the store changes, the day included |
| CalendarWidget.Calendar.ExploreButton | src/components/Calendar/CalendarWidget.tsx:77-83 | the Exploración button sets manual mode, nothing else in the store changes, and the shown hour becomes the slider's |
| MapView.FilteredFallas | src/components/Map/MapContainer.tsx:181-196 | the markers are a subsequence of the catalogue; each passes both filters, and every falla passing both is among them |
| MapView.NoFilterShowsAll | src/components/Map/MapContainer.tsx:185-190 | with the type filter on all and no category filter, every falla of the catalogue gets a marker |
| MapView.FiltersCompose | src/components/Map/MapContainer.tsx:182-195 | filtering by both tests equals filtering by type and then by category |
| MapView.TypeFilterCompares | src/components/Map/MapContainer.tsx:185 | the type filter compares the raw type: infantil keeps exactly the infantil fallas, grande keeps no falla typed adulta, and an untyped falla passes neither |
| MapView.MarkerClasses | src/components/Map/MapContainer.tsx:30-39 | the class list starts with custom-marker and holds each of the infantil, experimental and municipal classes exactly when its condition holds |
| MapView.MarkerClass | src/components/Map/MapContainer.tsx:30-39 | the class attribute built by appending is the class list joined by spaces |
| MapView.ClassTokens | src/components/Map/MapContainer.tsx:30-39 | a class attribute built by appending space-separated optional classes splits back on spaces into its list of classes |
| MapView.MarkerClassTokens | src/components/Map/MapContainer.tsx:30-43 | the marker's class attribute, split on spaces, is exactly its class list |
| MapView.CatalogueMarkersPlain | src/components/Map/MapContainer.tsx:34-39 | no falla of the catalogue gets the experimental or the municipal class |
| MapView.MapStyle | src/components/Map/MapContainer.tsx:166-179 | the tiles are light-v11 exactly on day hours (7 to 19) and dark-v11 exactly otherwise |
| MapView.MapStyleFollowsCalendar | src/components/Map/MapContainer.tsx:169-178 | the map and the calendar read the hour the same way, so the tiles are light exactly when the calendar says DÍA |
| MapView.TileURL | src/components/Map/MapContainer.tsx:208 | the tile URL starts with the Mapbox styles endpoint |
| MapView.TileURLStyle | src/components/Map/MapContainer.tsx:208 | the chosen style sits right after the fixed head of the tile URL |
| MapView.StopPositions | src/components/Map/MapContainer.tsx:81 | one position per stop, the k-th being the k-th stop's falla position |
| MapView.RouteCoordinates | src/components/Map/MapContainer.tsx:74-82 | an empty route draws no line; otherwise the line is the user's position followed by every stop's position, in order |
| MapView.RouteMarkers | src/components/Map/MapContainer.tsx:95-109 | one numbered marker per stop |
| MapView.MarkersOnPolyline | src/components/Map/MapContainer.tsx:79-106 | marker k carries the number k+1 and sits on vertex k+1 of the route line, vertex 0 being the user |

## Left out

- Floating-point arithmetic: the haversine and bearing formulas (src/services/routeOptimizer.ts:7-18, src/services/inAppNavigationService.ts:179-205, src/services/routeExportService.ts:170-185, src/components/Search/SearchBar.tsx:20-30). Every caller receives them as parameters, constrained only by dist >= 0 and 0 <= bearing < 360.
- A number in an imported file too large for a double: JSON.parse reads it as Infinity, which an imported id would carry past the `id > 0` test, but the model's numbers are finite reals.
- `sanitizeCoord` (toFixed(6), parseFloat, toString) and the plain number rendering in the Waze link are parameters of the link builders, because they convert floating-point numbers to text.
- `formatDistance` in the search box (toFixed(1) and metres) and the distance shown by the navigation panel: display text only.
- The exponent form that toFixed uses from 10^21 upwards, the "Infinity" that parseFloat accepts, and UTF-16 code units beyond single characters. Strings are sequences of Dafny characters, and the hash adds each character's code.
- Percent-decoding in URLSearchParams: the query is read as raw text, and an encoded character in it is not decoded.
- toLowerCase lowers only ASCII and Latin-1 capitals; other scripts are left as they are.
- The share, clipboard and QR code operations of the share service (navigator.share, navigator.clipboard, window.open, encodeURIComponent, the QR image service), because they are browser I/O.
- JSON.stringify, Blob, object URLs and the hidden-link click of the exports, and reading the import file with File.text. JSON.parse is taken as an input: the importer receives the size, the MIME type and the parsed record.
- The `new Date()` clock and `toISOString`: the current hour and the creation time are inputs.
- `new Date(string)` parsing: window starts are computed from the numeric date and time fields.
- `window.open`: every link builder returns the URL it would open, or None where the source opens nothing.
- Leaflet rendering: marker icons and their html, popups, fitBounds, tile loading, the mapbox token warning and the minute re-render interval. What the map shows is modelled as data: the filtered fallas, the class list, the tile style, the polyline and the numbered markers.
- The movement of animated markers between points, the random offsets of explosions, and everything the canvas engines draw. The engines are opaque: the manager sees an engine only as its id, its entry and its canvas's attachment to the page.
- `pauseAnimation` and `resumeAnimation` of the animation manager (src/services/animationManager.ts:115-130), because they only forward to the opaque engine and leave the manager's own state unchanged.
- The interval length of `startAutoUpdate`: the interval is a timer id, and each firing is an explicit `AutoUpdateTick` step.
- The mount and unmount effect of the event-animation hook (src/hooks/useEventAnimations.ts:13-21), which hands the map to the service and clears the animations on unmount. It is covered only by the service's `SetMap` and `ClearAnimations` methods.
- Real concurrency between timers: the arrival timer that `nextStop` and `stopNavigation` never cancel is modelled only as a pending step the caller may run.
- Audio playback, and the audio effects of the parade and offering components, because they are HTMLAudioElement I/O.
- The text fields of the recommended routes that no query reads (the description and the recommendations), and the president, fallera and boceto fields of the catalogue. The catalogue records are an input, so fallasStats has no fixed counts to state.
- Keyboard focus, blur and preventDefault in the search box, because they are DOM effects.
