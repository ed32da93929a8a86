/** The gamification state of the lab assistant: a user profile whose achievements and points
    grow with its activity counters, the ladder of levels, and the listing of recent searches. */
module LabAssistant {
  import opened Wrappers
  import opened Text
  import Cache

  /** One entry of the ACHIEVEMENTS table. */
  datatype Achievement = Achievement(name: string, points: nat, desc: string)

  /** The keys of the ACHIEVEMENTS table. */
  datatype AchievementId = FirstSearch | ProtocolGenerated | FiveProtocols | CacheMaster | Explorer | FormatExpert

  /** The string under which an achievement is stored in the profile. */
  function Key(id: AchievementId): string {
    match id
    case FirstSearch => "first_search"
    case ProtocolGenerated => "protocol_generated"
    case FiveProtocols => "five_protocols"
    case CacheMaster => "cache_master"
    case Explorer => "explorer"
    case FormatExpert => "format_expert"
  }

  /** ACHIEVEMENTS[Key(id)] */
  function Info(id: AchievementId): Achievement {
    match id
    case FirstSearch => Achievement("🔍 Primer Búsqueda", 10, "Realizaste tu primera búsqueda")
    case ProtocolGenerated => Achievement("📋 Protocolo Generado", 25, "Generaste tu primer protocolo")
    case FiveProtocols => Achievement("🎯 Cinco Protocolos", 50, "Has generado 5 protocolos")
    case CacheMaster => Achievement("💾 Maestro del Caché", 15, "Usaste el caché 10 veces")
    case Explorer => Achievement("🗺️ Explorador", 20, "Exploraste 10 artículos diferentes")
    case FormatExpert => Achievement("🎨 Experto en Formatos", 30, "Exportaste en todos los formatos")
  }

  /** The table has one key per achievement. */
  lemma KeyInjective(a: AchievementId, b: AchievementId)
    requires Key(a) == Key(b)
    ensures a == b
  {
  }

  /** The achievements check_achievements can award, in the order it tests them. */
  const CHECKED: seq<AchievementId> := [FirstSearch, ProtocolGenerated, FiveProtocols]

  /** The counter condition under which an achievement is earned; the other three achievements
      are never awarded. */
  predicate Earned(id: AchievementId, searches: int, protocols: int) {
    match id
    case FirstSearch => searches >= 1
    case ProtocolGenerated => protocols >= 1
    case FiveProtocols => protocols >= 5
    case _ => false
  }

  /** One test of check_achievements: `id` is appended when earned and not held. */
  function Step(id: AchievementId, earned: bool, held: seq<AchievementId>): seq<AchievementId> {
    if earned && id !in held then [id] else []
  }

  /** The ids a check appends to `held`, given the counters: the three tests in checking order,
      each on the list as the previous tests left it. */
  function NewlyUnlocked(searches: int, protocols: int, held: seq<AchievementId>): seq<AchievementId> {
    var a := Step(FirstSearch, searches >= 1, held);
    var b := Step(ProtocolGenerated, protocols >= 1, held + a);
    var c := Step(FiveProtocols, protocols >= 5, held + a + b);
    a + b + c
  }

  /** The total reward of a list of ids. */
  function Reward(ids: seq<AchievementId>): nat {
    if ids == [] then 0 else Info(ids[0]).points + Reward(ids[1..])
  }

  lemma {:induction false} RewardSnoc(ids: seq<AchievementId>, id: AchievementId)
    ensures Reward(ids + [id]) == Reward(ids) + Info(id).points
  {
    if ids == [] {
      assert ids + [id] == [id];
    } else {
      assert (ids + [id])[1..] == ids[1..] + [id];
      RewardSnoc(ids[1..], id);
    }
  }

  lemma {:induction false} RewardAppend(a: seq<AchievementId>, b: seq<AchievementId>)
    ensures Reward(a + b) == Reward(a) + Reward(b)
  {
    if a == [] {
      assert a + b == b;
    } else {
      assert (a + b)[1..] == a[1..] + b;
      RewardAppend(a[1..], b);
    }
  }

  /** The table entries of a list of ids. */
  function Entries(ids: seq<AchievementId>): (r: seq<Achievement>)
    ensures |r| == |ids|
  {
    seq(|ids|, i requires 0 <= i < |ids| => Info(ids[i]))
  }

  /** Regrouping the three steps of a check; stated apart so that CheckAchievements does not
      search for it. */
  lemma AppendAssociative(held: seq<AchievementId>, a: seq<AchievementId>, b: seq<AchievementId>, c: seq<AchievementId>)
    ensures held + a + b + c == held + (a + b + c)
  {
  }

  predicate NoDuplicates(ids: seq<AchievementId>) {
    forall i, j :: 0 <= i < j < |ids| ==> ids[i] != ids[j]
  }

  /** An id is unlocked exactly when it is one the check awards, its threshold holds and it is
      not held already. */
  lemma UnlockedIff(searches: int, protocols: int, held: seq<AchievementId>, id: AchievementId)
    ensures id in NewlyUnlocked(searches, protocols, held) <==>
            id in CHECKED && Earned(id, searches, protocols) && id !in held
  {
  }

  /** The position of an id in CHECKED. */
  function Rank(id: AchievementId): nat {
    match id
    case FirstSearch => 0
    case ProtocolGenerated => 1
    case _ => 2
  }

  /** Newly unlocked ids come in checking order. */
  lemma UnlockedInCheckingOrder(searches: int, protocols: int, held: seq<AchievementId>)
    ensures var r := NewlyUnlocked(searches, protocols, held);
            forall i, j :: 0 <= i < j < |r| ==> Rank(r[i]) < Rank(r[j])
  {
  }

  /** A duplicate-free achievement list stays duplicate-free after a check. */
  lemma {:induction false} NoDuplicatesPreserved(searches: int, protocols: int, held: seq<AchievementId>)
    requires NoDuplicates(held)
    ensures NoDuplicates(held + NewlyUnlocked(searches, protocols, held))
  {
    var added := NewlyUnlocked(searches, protocols, held);
    var all := held + added;
    UnlockedInCheckingOrder(searches, protocols, held);
    forall i, j | 0 <= i < j < |all| ensures all[i] != all[j] {
      if j >= |held| {
        assert all[j] == added[j - |held|];
        UnlockedIff(searches, protocols, held, added[j - |held|]);
        if i >= |held| {
          assert all[i] == added[i - |held|];
        }
      }
    }
  }

  /** A second check with the same counters unlocks nothing. */
  lemma {:induction false} CheckIsIdempotent(searches: int, protocols: int, held: seq<AchievementId>)
    ensures NewlyUnlocked(searches, protocols, held + NewlyUnlocked(searches, protocols, held)) == []
  {
    var after := held + NewlyUnlocked(searches, protocols, held);
    var again := NewlyUnlocked(searches, protocols, after);
    if again != [] {
      UnlockedIff(searches, protocols, after, again[0]);
      UnlockedIff(searches, protocols, held, again[0]);
      assert false;
    }
  }

  /** The reward of a check is at most 85 points (10 + 25 + 50), and it is zero exactly when
      nothing is unlocked. */
  lemma {:induction false} RewardBounds(searches: int, protocols: int, held: seq<AchievementId>)
    ensures Reward(NewlyUnlocked(searches, protocols, held)) <= 85
    ensures Reward(NewlyUnlocked(searches, protocols, held)) == 0 <==> NewlyUnlocked(searches, protocols, held) == []
  {
    var a := Step(FirstSearch, searches >= 1, held);
    var b := Step(ProtocolGenerated, protocols >= 1, held + a);
    var c := Step(FiveProtocols, protocols >= 5, held + a + b);
    RewardAppend(a, b);
    RewardAppend(a + b, c);
    assert Reward(a) <= 10 && (a != [] ==> Reward(a) == 10);
    assert Reward(b) <= 25 && (b != [] ==> Reward(b) == 25);
    assert Reward(c) <= 50 && (c != [] ==> Reward(c) == 50);
  }

  /** One level of the ladder: the name and the points at which it is reached. */
  datatype Level = Level(name: string, pointsNeeded: int)

  const LEVELS: seq<Level> := [
    Level("Estudiante", 0),
    Level("Asistente Junior", 100),
    Level("Asistente Senior", 250),
    Level("Investigador Junior", 500),
    Level("Investigador Senior", 1000),
    Level("Experto", 2000),
    Level("Maestro del Laboratorio", 5000)
  ]

  /** The ladder is strictly ascending, and its top is 5000 points. */
  lemma LevelsAscending()
    ensures forall i, j :: 0 <= i < j < |LEVELS| ==> LEVELS[i].pointsNeeded < LEVELS[j].pointsNeeded
    ensures LEVELS[|LEVELS| - 1].pointsNeeded == 5000
  {
  }

  /** The index of the first level from `from` on that `points` has not reached. */
  function NextLevelFrom(points: int, from: nat): (r: Option<nat>)
    requires from <= |LEVELS|
    ensures r.Some? ==> from <= r.value < |LEVELS| && points < LEVELS[r.value].pointsNeeded
    ensures r.Some? ==> forall j :: from <= j < r.value ==> points >= LEVELS[j].pointsNeeded
    ensures r.None? ==> forall j :: from <= j < |LEVELS| ==> points >= LEVELS[j].pointsNeeded
    decreases |LEVELS| - from
  {
    if from == |LEVELS| then None
    else if points < LEVELS[from].pointsNeeded then Some(from)
    else NextLevelFrom(points, from + 1)
  }

  /** _calculate_next_level, as a value. */
  function NextLevel(points: int): Option<Level> {
    match NextLevelFrom(points, 0)
    case Some(i) => Some(LEVELS[i])
    case None => None
  }

  /** There is a next level exactly below 5000 points, and it is the level with the smallest
      threshold above the points. */
  lemma NextLevelIsLeastAbove(points: int)
    ensures NextLevel(points).None? <==> points >= 5000
    ensures NextLevel(points).Some? ==>
              NextLevel(points).value in LEVELS && points < NextLevel(points).value.pointsNeeded &&
              forall l :: l in LEVELS && points < l.pointsNeeded ==> NextLevel(points).value.pointsNeeded <= l.pointsNeeded
  {
    LevelsAscending();
    var k := NextLevelFrom(points, 0);
    if k.None? {
      assert points >= LEVELS[6].pointsNeeded;
    } else {
      forall l | l in LEVELS && points < l.pointsNeeded
        ensures LEVELS[k.value].pointsNeeded <= l.pointsNeeded
      {
        var j :| 0 <= j < |LEVELS| && LEVELS[j] == l;
        assert j >= k.value;
      }
    }
  }

  /** More points never bring a lower next threshold. */
  lemma NextLevelMonotonic(p: int, q: int)
    requires p <= q && NextLevel(q).Some?
    ensures NextLevel(p).Some? && NextLevel(p).value.pointsNeeded <= NextLevel(q).value.pointsNeeded
  {
    NextLevelIsLeastAbove(p);
    NextLevelIsLeastAbove(q);
  }

  /** One element of last_searches: the query and when it was made, in microseconds. */
  datatype SearchRecord = SearchRecord(query: string, timestamp: int)

  /** `last_searches[-3:]`: the last three records, all of them when there are fewer. */
  function Recent(searches: seq<SearchRecord>): (r: seq<SearchRecord>)
    ensures |r| == if |searches| < 3 then |searches| else 3
    ensures r == searches[|searches| - |r|..]
  {
    if |searches| <= 3 then searches else searches[|searches| - 3..]
  }

  /** How long ago, in whole days, a search was made. */
  function DayLabel(days: int): string {
    if days == 0 then "Hoy"
    else if days == 1 then "Ayer"
    else "Hace " + IntToString(days) + " días"
  }

  /** Different day counts get different labels. */
  lemma DayLabelInjective(a: int, b: int)
    requires DayLabel(a) == DayLabel(b)
    ensures a == b
  {
    if a != 0 && a != 1 && b != 0 && b != 1 {
      var la := "Hace " + IntToString(a) + " días";
      var lb := "Hace " + IntToString(b) + " días";
      assert IntToString(a) == la[5..|la| - 5];
      assert IntToString(b) == lb[5..|lb| - 5];
      IntToStringInjective(a, b);
    }
  }

  /** The line listing one search at time `now`. */
  function SearchLine(s: SearchRecord, now: int): string {
    "• " + s.query + " (" + DayLabel(Cache.AgeInDays(now, s.timestamp)) + ")"
  }

  /** The lines of the recent searches, in stored order. */
  function RecentLines(searches: seq<SearchRecord>, now: int): (r: seq<string>)
    ensures |r| == |Recent(searches)|
  {
    var recent := Recent(searches);
    seq(|recent|, i requires 0 <= i < |recent| => SearchLine(recent[i], now))
  }

  /** The listing is empty exactly when there are no searches, and it lists the newest search last. */
  lemma RecentListing(searches: seq<SearchRecord>, now: int)
    ensures Join("\n", RecentLines(searches, now)) == "" <==> searches == []
    ensures searches != [] ==> RecentLines(searches, now)[|RecentLines(searches, now)| - 1]
                                 == SearchLine(searches[|searches| - 1], now)
  {
    var lines := RecentLines(searches, now);
    if lines != [] {
      JoinNonEmpty("\n", lines);
    }
  }

  lemma {:induction false} JoinNonEmpty(sep: string, xs: seq<string>)
    requires xs != [] && xs[0] != ""
    ensures Join(sep, xs) != ""
  {
    if |xs| > 1 {
      assert |Join(sep, xs)| >= |xs[0]|;
    }
  }

  class UserProfile {
    var name: string
    var level: string
    var points: int
    var searches: int
    var protocolsGenerated: int
    var achievements: seq<AchievementId>
    var favoriteTopics: seq<string>
    var lastSearches: seq<SearchRecord>
    var preferredFormat: string
    var preferredStyle: string
    var createdAt: int

    /** A new profile with the dataclass defaults, created at `now`. */
    constructor (now: int)
      ensures name == "Científico" && level == "Estudiante"
      ensures points == 0 && searches == 0 && protocolsGenerated == 0
      ensures achievements == [] && favoriteTopics == [] && lastSearches == []
      ensures preferredFormat == "markdown" && preferredStyle == "educational"
      ensures createdAt == now
    {
      name := "Científico";
      level := "Estudiante";
      points := 0;
      searches := 0;
      protocolsGenerated := 0;
      achievements := [];
      favoriteTopics := [];
      lastSearches := [];
      preferredFormat := "markdown";
      preferredStyle := "educational";
      createdAt := now;
    }

    /** check_achievements: appends the newly earned ids after the held ones, adds their rewards
        to the points, and returns the unlocked table entries in award order. */
    method CheckAchievements() returns (unlocked: seq<Achievement>)
      modifies this`achievements, this`points
      ensures achievements == old(achievements) + NewlyUnlocked(old(searches), old(protocolsGenerated), old(achievements))
      ensures points == old(points) + Reward(NewlyUnlocked(old(searches), old(protocolsGenerated), old(achievements)))
      ensures unlocked == Entries(NewlyUnlocked(old(searches), old(protocolsGenerated), old(achievements)))
    {
      ghost var held := achievements;
      ghost var ids: seq<AchievementId> := [];
      var newAchievements: seq<Achievement> := [];
      newAchievements, ids := Unlock(FirstSearch, searches >= 1, newAchievements, ids);
      ghost var a := Step(FirstSearch, searches >= 1, held);
      assert ids == a by { assert [] + a == a; }
      newAchievements, ids := Unlock(ProtocolGenerated, protocolsGenerated >= 1, newAchievements, ids);
      ghost var b := Step(ProtocolGenerated, protocolsGenerated >= 1, held + a);
      newAchievements, ids := Unlock(FiveProtocols, protocolsGenerated >= 5, newAchievements, ids);
      ghost var c := Step(FiveProtocols, protocolsGenerated >= 5, held + a + b);
      AppendAssociative(held, a, b, c);
      AwardPoints(newAchievements, ids);
      unlocked := newAchievements;
    }

    /** One test of check_achievements: when `earned` holds and `id` is not held yet, `id` is
        appended to the achievements and its table entry to the unlocked list. */
    method Unlock(id: AchievementId, earned: bool, newAchievements: seq<Achievement>, ghost ids: seq<AchievementId>)
      returns (grown: seq<Achievement>, ghost grownIds: seq<AchievementId>)
      requires newAchievements == Entries(ids)
      modifies this`achievements
      ensures achievements == old(achievements) + Step(id, earned, old(achievements))
      ensures grownIds == ids + Step(id, earned, old(achievements)) && grown == Entries(grownIds)
    {
      grown, grownIds := newAchievements, ids;
      if earned && id !in achievements {
        achievements := achievements + [id];
        grown, grownIds := newAchievements + [Info(id)], ids + [id];
      }
    }

    /** The points loop of check_achievements: adds each unlocked achievement's reward. */
    method AwardPoints(newAchievements: seq<Achievement>, ghost ids: seq<AchievementId>)
      requires newAchievements == Entries(ids)
      modifies this`points
      ensures points == old(points) + Reward(ids)
    {
      var k := 0;
      while k < |newAchievements|
        invariant 0 <= k <= |newAchievements|
        invariant points == old(points) + Reward(ids[..k])
      {
        RewardSnoc(ids[..k], ids[k]);
        assert ids[..k + 1] == ids[..k] + [ids[k]];
        points := points + newAchievements[k].points;
        k := k + 1;
      }
      assert ids[..k] == ids;
    }

    /** _calculate_next_level: the first level of the ladder whose threshold is above the points. */
    method CalculateNextLevel() returns (r: Option<Level>)
      ensures r == NextLevel(points)
    {
      var i := 0;
      while i < |LEVELS|
        invariant 0 <= i <= |LEVELS|
        invariant NextLevelFrom(points, i) == NextLevelFrom(points, 0)
      {
        if points < LEVELS[i].pointsNeeded {
          return Some(LEVELS[i]);
        }
        i := i + 1;
      }
      return None;
    }

    /** _format_recent_searches at time `now`: one line per recent search, joined by newlines. */
    method FormatRecentSearches(now: int) returns (r: string)
      ensures r == Join("\n", RecentLines(lastSearches, now))
    {
      var recent := Recent(lastSearches);
      ghost var expected := RecentLines(lastSearches, now);
      var lines: seq<string> := [];
      var k := 0;
      while k < |recent|
        invariant |expected| == |recent|
        invariant 0 <= k <= |recent| && lines == expected[..k]
      {
        var line := FormatSearch(recent[k], now);
        assert expected[..k + 1] == lines + [line];
        lines := lines + [line];
        k := k + 1;
      }
      assert lines == expected;
      r := Join("\n", lines);
    }
  }

  /** One line of the listing, with the age in whole days as timedelta counts it. */
  method FormatSearch(search: SearchRecord, now: int) returns (line: string)
    ensures line == SearchLine(search, now)
  {
    var days := (now - search.timestamp) / Cache.MICROS_PER_DAY;
    var timeText;
    if days == 0 {
      timeText := "Hoy";
    } else if days == 1 {
      timeText := "Ayer";
    } else {
      timeText := "Hace " + IntToString(days) + " días";
    }
    line := "• " + search.query + " (" + timeText + ")";
  }

  /** Checking twice with unchanged counters: the second check unlocks nothing and changes neither
      the achievements nor the points. */
  method CheckTwice(profile: UserProfile) returns (first: seq<Achievement>, second: seq<Achievement>)
    requires NoDuplicates(profile.achievements)
    modifies profile
    ensures second == [] && NoDuplicates(profile.achievements)
    ensures profile.achievements == old(profile.achievements) + NewlyUnlocked(old(profile.searches), old(profile.protocolsGenerated), old(profile.achievements))
    ensures profile.points == old(profile.points) + Reward(NewlyUnlocked(old(profile.searches), old(profile.protocolsGenerated), old(profile.achievements)))
  {
    first := profile.CheckAchievements();
    NoDuplicatesPreserved(old(profile.searches), old(profile.protocolsGenerated), old(profile.achievements));
    CheckIsIdempotent(old(profile.searches), old(profile.protocolsGenerated), old(profile.achievements));
    ghost var points := profile.points;
    second := profile.CheckAchievements();
    assert profile.points == points + Reward([]);
  }
}
