/**
  The two pick forms of pool/forms.py: the fields each form builds for a
  week, the per-field checks a submitted value must pass, and the
  cross-field `clean` checks.

  A submission is a map from field name to the integer submitted; a field
  left empty, or holding something that is not an integer, is absent from
  the map. A field whose value passes its own check enters the cleaned
  data; a form is valid when every field passes and `clean` passes.
 */
module Forms {
  import opened Wrappers
  import opened Models

  datatype FieldName =
    | GameTeam(game: GameId)          // `game_<id>_team`
    | GameConfidence(game: GameId)    // `game_<id>_confidence`
    | SurvivorSlot(slot: nat)         // `survivor_pick_<slot>`

  /** A form field and the values it accepts. */
  datatype FormField =
    | ChoiceField(choices: set<TeamId>)
    | IntegerField(minValue: int, maxValue: int)

  type FormData = map<FieldName, int>

  /** The field's own check. */
  predicate FieldAccepts(f: FormField, v: int)
  {
    match f
    case ChoiceField(choices) => v in choices
    case IntegerField(lo, hi) => lo <= v <= hi
  }

  /** Every field of the form holds a value it accepts. */
  predicate FieldsValid(fields: map<FieldName, FormField>, data: FormData)
  {
    forall n :: n in fields ==> n in data && FieldAccepts(fields[n], data[n])
  }

  /**
    `cleaned_data` as `clean` sees it: the fields whose values passed their
    own check. Its ensures spell out the comprehension; what it means for
    a submission is stated by CleanedDataComplete and the clean lemmas below.
   */
  function CleanedData(fields: map<FieldName, FormField>, data: FormData): (cleaned: FormData)
    ensures forall n :: n in cleaned <==> n in fields && n in data && FieldAccepts(fields[n], data[n])
    ensures forall n :: n in cleaned ==> cleaned[n] == data[n]
  {
    map n | n in fields && n in data && FieldAccepts(fields[n], data[n]) :: data[n]
  }

  lemma CleanedDataComplete(fields: map<FieldName, FormField>, data: FormData)
    requires FieldsValid(fields, data)
    ensures CleanedData(fields, data).Keys == fields.Keys
  {
  }

  /** The set of the elements of a sequence. */
  function SetOf(s: seq<int>): (r: set<int>)
    ensures forall x :: x in r <==> x in s
  {
    set x | x in s
  }

  /** No value appears twice. */
  predicate Distinct(s: seq<int>)
  {
    forall i, j :: 0 <= i < j < |s| ==> s[i] != s[j]
  }

  /** The length-against-set-size test the forms use detects exactly the repeated values. */
  lemma {:induction false} DistinctIffSetSize(s: seq<int>)
    ensures |SetOf(s)| <= |s|
    ensures |SetOf(s)| == |s| <==> Distinct(s)
    decreases |s|
  {
    if s != [] {
      var prefix, x := s[..|s| - 1], s[|s| - 1];
      DistinctIffSetSize(prefix);
      assert s == prefix + [x];
      assert SetOf(s) == SetOf(prefix) + {x};
      if x in prefix {
        var i :| 0 <= i < |prefix| && prefix[i] == x;
        assert s[i] == s[|s| - 1];
        assert SetOf(s) == SetOf(prefix);
      } else {
        if Distinct(prefix) {
          forall i, j | 0 <= i < j < |s|
            ensures s[i] != s[j]
          {
            if j == |s| - 1 {
              assert s[i] == prefix[i];
            } else {
              assert s[i] == prefix[i] && s[j] == prefix[j];
            }
          }
        }
        if Distinct(s) {
          forall i, j | 0 <= i < j < |prefix|
            ensures prefix[i] != prefix[j]
          {
            assert s[i] == prefix[i] && s[j] == prefix[j];
          }
        }
      }
    }
  }

  /** A subset as large as its superset is the superset. */
  lemma SubsetSameSize(a: set<int>, b: set<int>)
    requires a <= b && |a| == |b|
    ensures a == b
  {
    assert b == a + (b - a);
    assert |b - a| == 0;
  }

  // ---------------------------------------------------------------------
  // WeekPicksForm (pool/forms.py:6-98)
  // ---------------------------------------------------------------------

  /** The week's games: `Game.objects.filter(week=week).order_by('game_time')`. */
  function WeekGames(games: seq<Game>, w: WeekId): (r: seq<Game>)
    ensures forall g :: g in r <==> g in games && g.week == w
    ensures |r| <= |games|
  {
    if games == [] then []
    else (if games[0].week == w then [games[0]] else []) + WeekGames(games[1..], w)
  }

  /** The week's games keep the table's game-time order. */
  lemma {:induction false} WeekGamesInOrder(games: seq<Game>, w: WeekId)
    requires ByGameTime(games)
    ensures ByGameTime(WeekGames(games, w))
    decreases |games|
  {
    if games != [] {
      WeekGamesInOrder(games[1..], w);
      var rest := WeekGames(games[1..], w);
      forall g | g in rest
        ensures games[0].gameTime <= g.gameTime
      {
        var j :| 0 <= j < |games[1..]| && games[1..][j] == g;
        assert games[j + 1] == g;
      }
    }
  }

  lemma {:induction false} WeekGamesDistinct(games: seq<Game>, w: WeekId)
    requires DistinctGameIds(games)
    ensures DistinctGameIds(WeekGames(games, w))
    decreases |games|
  {
    if games != [] {
      WeekGamesDistinct(games[1..], w);
      var rest := WeekGames(games[1..], w);
      assert DistinctGameIds(games[1..]);
      if games[0].week == w {
        var r := WeekGames(games, w);
        assert r == [games[0]] + rest;
        forall i, j | 0 <= i < j < |r|
          ensures r[i].id != r[j].id
        {
          if i == 0 {
            assert r[j] in games[1..];
          } else {
            assert r[i] == rest[i - 1] && r[j] == rest[j - 1];
          }
        }
      }
    }
  }

  /**
    The fields WeekPicksForm.__init__ adds for `games`, in order: for each
    game a choice between its two teams and a confidence from 1 to `n`.
   */
  function GameFields(games: seq<Game>, n: int): map<FieldName, FormField>
    decreases |games|
  {
    if games == [] then map[]
    else
      var g := games[|games| - 1];
      GameFields(games[..|games| - 1], n)[GameTeam(g.id) := ChoiceField({g.homeTeam, g.awayTeam})]
                                         [GameConfidence(g.id) := IntegerField(1, n)]
  }

  /** Each game of the week has its two fields, confidences ranging over 1..N for the week's N games. */
  ghost predicate HasGameFields(games: seq<Game>, fields: map<FieldName, FormField>)
  {
    forall g :: g in games ==>
      GameTeam(g.id) in fields && fields[GameTeam(g.id)] == ChoiceField({g.homeTeam, g.awayTeam}) &&
      GameConfidence(g.id) in fields && fields[GameConfidence(g.id)] == IntegerField(1, |games|)
  }

  /** The form has no field other than the two of each game. */
  ghost predicate OnlyGameFields(games: seq<Game>, fields: map<FieldName, FormField>)
  {
    forall n :: n in fields ==> exists g :: g in games && (n == GameTeam(g.id) || n == GameConfidence(g.id))
  }

  /** With distinct game ids, no game's fields are overwritten by a later game's. */
  lemma {:induction false} GameFieldsPrefix(games: seq<Game>, i: nat, n: int)
    requires DistinctGameIds(games) && i <= |games|
    ensures forall g :: g in games[..i] ==>
      GameTeam(g.id) in GameFields(games[..i], n) && GameFields(games[..i], n)[GameTeam(g.id)] == ChoiceField({g.homeTeam, g.awayTeam}) &&
      GameConfidence(g.id) in GameFields(games[..i], n) && GameFields(games[..i], n)[GameConfidence(g.id)] == IntegerField(1, n)
    ensures forall m :: m in GameFields(games[..i], n) ==> exists g :: g in games[..i] && (m == GameTeam(g.id) || m == GameConfidence(g.id))
  {
    if i > 0 {
      GameFieldsPrefix(games, i - 1, n);
      var prefix := games[..i - 1];
      assert games[..i][..i - 1] == prefix;
      var game := games[i - 1];
      forall g | g in prefix
        ensures g.id != game.id
      {
        var j :| 0 <= j < i - 1 && games[j] == g;
      }
      assert games[..i] == prefix + [game];
    }
  }

  /** The fields WeekPicksForm.__init__ builds for the week's games, one game at a time. */
  method WeekPicksFields(games: seq<Game>) returns (fields: map<FieldName, FormField>)
    requires DistinctGameIds(games)
    ensures fields == GameFields(games, |games|)
    ensures HasGameFields(games, fields) && OnlyGameFields(games, fields)
  {
    var numGames := |games|;
    fields := map[];
    for i := 0 to |games|
      invariant fields == GameFields(games[..i], numGames)
    {
      var game := games[i];
      fields := fields[GameTeam(game.id) := ChoiceField({game.homeTeam, game.awayTeam})];
      fields := fields[GameConfidence(game.id) := IntegerField(1, numGames)];
      assert games[..i + 1][..i] == games[..i];
    }
    assert games[..|games|] == games;
    GameFieldsPrefix(games, |games|, numGames);
  }

  /** The first team with the given abbreviation (`Team.objects.get(abbreviation=...)`; abbreviations are unique). */
  function FindTeam(teams: seq<Team>, abbreviation: string): (r: Option<Team>)
    ensures r.Some? ==> r.value in teams && r.value.abbreviation == abbreviation
    ensures r.None? <==> forall t :: t in teams ==> t.abbreviation != abbreviation
  {
    if teams == [] then None
    else if teams[0].abbreviation == abbreviation then Some(teams[0])
    else FindTeam(teams[1..], abbreviation)
  }

  /** The abbreviation of the team every entrant must pick to win. */
  const MustPickAbbreviation: string := "CHI"

  /** Both fields of game `g` passed their own checks. */
  predicate GameCleaned(g: Game, cleaned: FormData)
  {
    GameTeam(g.id) in cleaned && GameConfidence(g.id) in cleaned
  }

  /** `confidence_values`: the confidences of the games whose two fields passed, in game order. */
  function ConfidenceValues(games: seq<Game>, cleaned: FormData): (values: seq<int>)
    ensures |values| <= |games|
    decreases |games|
  {
    if games == [] then []
    else
      var g := games[|games| - 1];
      ConfidenceValues(games[..|games| - 1], cleaned) + (if GameCleaned(g, cleaned) then [cleaned[GameConfidence(g.id)]] else [])
  }

  /** The confidence every game of the week was given. */
  function Confidences(games: seq<Game>, data: FormData): (values: seq<int>)
    requires forall i :: 0 <= i < |games| ==> GameConfidence(games[i].id) in data
    ensures |values| == |games|
    ensures forall i :: 0 <= i < |games| ==> values[i] == data[GameConfidence(games[i].id)]
  {
    seq(|games|, i requires 0 <= i < |games| => data[GameConfidence(games[i].id)])
  }

  /** When every game's fields passed, the collected values are the games' confidences, in game order. */
  lemma {:induction false} ConfidenceValuesAll(games: seq<Game>, cleaned: FormData)
    requires forall i :: 0 <= i < |games| ==> GameTeam(games[i].id) in cleaned && GameConfidence(games[i].id) in cleaned
    ensures ConfidenceValues(games, cleaned) == Confidences(games, cleaned)
    decreases |games|
  {
    if games != [] {
      var prefix := games[..|games| - 1];
      assert forall i :: 0 <= i < |prefix| ==> prefix[i] == games[i];
      ConfidenceValuesAll(prefix, cleaned);
      assert GameCleaned(games[|games| - 1], cleaned);
    }
  }

  /** `bears_picked`: some game the team plays, with both fields cleaned, names the team as the winner. */
  predicate MustPickTeamPicked(games: seq<Game>, cleaned: FormData, team: TeamId)
  {
    exists g :: g in games && GameCleaned(g, cleaned) && Plays(g, team) && cleaned[GameTeam(g.id)] == team
  }

  datatype PicksError =
    | MustPickTeamMissed      // "You must pick the Chicago Bears to win their game!"
    | DuplicateConfidence     // "Each game must have a unique confidence value!"
    | ConfidenceNotCovered    // "You must use all confidence values from 1 to N!"
    | DuplicateSurvivorTeam   // "You cannot pick the same team multiple times in one week!"

  /**
    WeekPicksForm.clean: with no games there is nothing to check; else the
    must-pick team (when it exists) must be picked, then no confidence may
    repeat, then the confidences must be exactly 1..N. The first failing
    check is the one reported.
   */
  function CleanWeekPicks(games: seq<Game>, cleaned: FormData, mustPick: Option<Team>): (r: Outcome<PicksError>)
    ensures games == [] ==> r == Pass
    ensures r == Fail(MustPickTeamMissed) <==>
      games != [] && mustPick.Some? && !MustPickTeamPicked(games, cleaned, mustPick.value.id)
    ensures r == Fail(DuplicateConfidence) <==>
      games != [] && (mustPick.None? || MustPickTeamPicked(games, cleaned, mustPick.value.id)) &&
      !Distinct(ConfidenceValues(games, cleaned))
    ensures r == Fail(ConfidenceNotCovered) ==> Distinct(ConfidenceValues(games, cleaned))
    ensures r == Pass && games != [] ==>
      Distinct(ConfidenceValues(games, cleaned)) && SetOf(ConfidenceValues(games, cleaned)) == UpTo(|games|)
    ensures r != Fail(DuplicateSurvivorTeam)
  {
    if games == [] then Pass
    else if mustPick.Some? && !MustPickTeamPicked(games, cleaned, mustPick.value.id) then Fail(MustPickTeamMissed)
    else
      var values := ConfidenceValues(games, cleaned);
      DistinctIffSetSize(values);
      if |values| != |SetOf(values)| then Fail(DuplicateConfidence)
      else if SetOf(values) != UpTo(|games|) then Fail(ConfidenceNotCovered)
      else Pass
  }

  /** `confidence_form.is_valid()`. */
  predicate WeekPicksValid(games: seq<Game>, fields: map<FieldName, FormField>, data: FormData, mustPick: Option<Team>)
  {
    FieldsValid(fields, data) && CleanWeekPicks(games, CleanedData(fields, data), mustPick) == Pass
  }

  /** Every field of a week's form that is valid passed its own check, so every game is cleaned. */
  lemma AllGamesCleaned(games: seq<Game>, fields: map<FieldName, FormField>, data: FormData)
    requires HasGameFields(games, fields)
    requires FieldsValid(fields, data)
    ensures forall i :: 0 <= i < |games| ==>
      GameTeam(games[i].id) in CleanedData(fields, data) && GameConfidence(games[i].id) in CleanedData(fields, data)
  {
    var cleaned := CleanedData(fields, data);
    forall i | 0 <= i < |games|
      ensures GameTeam(games[i].id) in cleaned && GameConfidence(games[i].id) in cleaned
    {
      var g := games[i];
      assert g in games;
      assert FieldAccepts(fields[GameTeam(g.id)], data[GameTeam(g.id)]);
      assert FieldAccepts(fields[GameConfidence(g.id)], data[GameConfidence(g.id)]);
    }
  }

  /** An accepted submission names, for every game, one of the two teams playing it. */
  lemma AcceptedPicksNameTeams(games: seq<Game>, fields: map<FieldName, FormField>, data: FormData, mustPick: Option<Team>)
    requires HasGameFields(games, fields)
    requires WeekPicksValid(games, fields, data, mustPick)
    ensures forall g :: g in games ==> GameTeam(g.id) in data && Plays(g, data[GameTeam(g.id)])
  {
    forall g | g in games
      ensures GameTeam(g.id) in data && Plays(g, data[GameTeam(g.id)])
    {
      assert FieldAccepts(fields[GameTeam(g.id)], data[GameTeam(g.id)]);
    }
  }

  /**
    An accepted submission gives the N games of the week the confidences
    1..N, each exactly once: a permutation of 1..N.
   */
  lemma AcceptedWeightsArePermutation(games: seq<Game>, fields: map<FieldName, FormField>, data: FormData, mustPick: Option<Team>)
    requires HasGameFields(games, fields)
    requires WeekPicksValid(games, fields, data, mustPick)
    ensures forall i :: 0 <= i < |games| ==> GameConfidence(games[i].id) in data
    ensures Distinct(Confidences(games, data)) && SetOf(Confidences(games, data)) == UpTo(|games|)
  {
    var cleaned := CleanedData(fields, data);
    assert CleanWeekPicks(games, cleaned, mustPick) == Pass;
    AllGamesCleaned(games, fields, data);
    ConfidenceValuesAll(games, cleaned);
    assert Confidences(games, data) == Confidences(games, cleaned);
  }

  /**
    Conversely, a submission whose every field passes, which picks the
    must-pick team in one of its games, and whose confidences are pairwise
    distinct, is accepted: N distinct values from 1..N cover 1..N.
   */
  lemma DistinctWeightsAccepted(games: seq<Game>, fields: map<FieldName, FormField>, data: FormData, mustPick: Option<Team>)
    requires HasGameFields(games, fields)
    requires FieldsValid(fields, data)
    requires mustPick.Some? ==> exists g :: g in games && Plays(g, mustPick.value.id) && data[GameTeam(g.id)] == mustPick.value.id
    requires forall i :: 0 <= i < |games| ==> GameConfidence(games[i].id) in data
    requires Distinct(Confidences(games, data))
    ensures WeekPicksValid(games, fields, data, mustPick)
  {
    var cleaned := CleanedData(fields, data);
    AllGamesCleaned(games, fields, data);
    if games != [] {
      if mustPick.Some? {
        var g :| g in games && Plays(g, mustPick.value.id) && data[GameTeam(g.id)] == mustPick.value.id;
        assert FieldAccepts(fields[GameTeam(g.id)], data[GameTeam(g.id)]);
        assert FieldAccepts(fields[GameConfidence(g.id)], data[GameConfidence(g.id)]);
      }
      ConfidenceValuesAll(games, cleaned);
      var values := ConfidenceValues(games, cleaned);
      assert values == Confidences(games, data);
      DistinctIffSetSize(values);
      forall v | v in SetOf(values)
        ensures v in UpTo(|games|)
      {
        var i :| 0 <= i < |values| && values[i] == v;
        assert games[i] in games;
        assert FieldAccepts(fields[GameConfidence(games[i].id)], data[GameConfidence(games[i].id)]);
      }
      SubsetSameSize(SetOf(values), UpTo(|games|));
    }
  }

  /** Two games given the same confidence: the submission is rejected. */
  lemma RepeatedWeightRejected(games: seq<Game>, fields: map<FieldName, FormField>, data: FormData, mustPick: Option<Team>, i: int, j: int)
    requires HasGameFields(games, fields)
    requires 0 <= i < j < |games|
    requires GameConfidence(games[i].id) in data && GameConfidence(games[j].id) in data
    requires data[GameConfidence(games[i].id)] == data[GameConfidence(games[j].id)]
    ensures !WeekPicksValid(games, fields, data, mustPick)
  {
    if WeekPicksValid(games, fields, data, mustPick) {
      AcceptedWeightsArePermutation(games, fields, data, mustPick);
    }
  }

  /**
    When the must-pick team exists but plays none of the week's games,
    every submission is rejected for not picking it.
   */
  lemma ByeWeekRejectsEverything(games: seq<Game>, cleaned: FormData, mustPick: Team)
    requires games != []
    requires forall g :: g in games ==> !Plays(g, mustPick.id)
    ensures CleanWeekPicks(games, cleaned, Some(mustPick)) == Fail(MustPickTeamMissed)
  {
  }

  // ---------------------------------------------------------------------
  // SurvivorPickForm (pool/forms.py:101-164)
  // ---------------------------------------------------------------------

  /**
    The teams `user` has picked for survivor in any week of `season`, this
    week included. UsedTeamRejected and SavedSurvivorPicks in Views state
    what this set excludes from a submission.
   */
  function UsedTeams(picks: seq<SurvivorPick>, weeks: map<WeekId, Week>, user: User, season: SeasonId): (used: set<TeamId>)
    ensures forall t :: t in used <==>
      exists p :: p in picks && p.user == user && p.week in weeks && weeks[p.week].season == season && p.pickedTeam == t
  {
    set p | p in picks && p.user == user && p.week in weeks && weeks[p.week].season == season :: p.pickedTeam
  }

  /**
    `Team.objects.exclude(id__in=used_teams)`: the ids of the teams not yet
    used; AcceptedSurvivorPicks states that only these can be submitted.
   */
  function AvailableTeams(teams: seq<Team>, used: set<TeamId>): (available: set<TeamId>)
    ensures forall t :: t in available <==> t !in used && exists team :: team in teams && team.id == t
  {
    set team | team in teams && team.id !in used :: team.id
  }

  /** Survivor slots 1..n, each a required choice among `choices`. */
  function SlotFields(n: nat, choices: set<TeamId>): map<FieldName, FormField>
  {
    if n == 0 then map[] else SlotFields(n - 1, choices)[SurvivorSlot(n) := ChoiceField(choices)]
  }

  /** The slots are numbered 1..n and every one offers the same choices. */
  lemma {:induction false} SlotFieldsShape(n: nat, choices: set<TeamId>)
    ensures forall m :: m in SlotFields(n, choices) <==> exists i :: 1 <= i <= n && m == SurvivorSlot(i)
    ensures forall m :: m in SlotFields(n, choices) ==> SlotFields(n, choices)[m] == ChoiceField(choices)
  {
    if n > 0 {
      SlotFieldsShape(n - 1, choices);
    }
  }

  /**
    The fields SurvivorPickForm.__init__ builds: one required choice per
    survivor pick the week asks for, numbered from 1, each offering the
    teams the user has not used this season. The empty choice it also
    offers is refused by `required=True` and is not a choice here.
   */
  method SurvivorFields(week: Week, user: User, teams: seq<Team>, picks: seq<SurvivorPick>, weeks: map<WeekId, Week>)
    returns (fields: map<FieldName, FormField>)
    ensures fields == SlotFields(SurvivorPicksRequired(week), AvailableTeams(teams, UsedTeams(picks, weeks, user, week.season)))
    ensures IsSurvivorForm(week, AvailableTeams(teams, UsedTeams(picks, weeks, user, week.season)), fields)
  {
    var choices := AvailableTeams(teams, UsedTeams(picks, weeks, user, week.season));
    var numPicks := SurvivorPicksRequired(week);
    fields := map[];
    for i := 0 to numPicks
      invariant fields == SlotFields(i, choices)
    {
      fields := fields[SurvivorSlot(i + 1) := ChoiceField(choices)];
    }
    SlotFieldsShape(numPicks, choices);
  }

  /** `picked_teams`: the cleaned slots 1..n, in order. */
  function PickedTeams(cleaned: FormData, n: nat): (teams: seq<int>)
    ensures |teams| <= n
    decreases n
  {
    if n == 0 then []
    else PickedTeams(cleaned, n - 1) + (if SurvivorSlot(n) in cleaned then [cleaned[SurvivorSlot(n)]] else [])
  }

  lemma {:induction false} PickedTeamsAll(cleaned: FormData, n: nat)
    requires forall i :: 1 <= i <= n ==> SurvivorSlot(i) in cleaned
    ensures |PickedTeams(cleaned, n)| == n
    ensures forall i :: 1 <= i <= n ==> PickedTeams(cleaned, n)[i - 1] == cleaned[SurvivorSlot(i)]
    decreases n
  {
    if n > 0 {
      PickedTeamsAll(cleaned, n - 1);
    }
  }

  /** SurvivorPickForm.clean: the same team may not fill two slots. */
  function CleanSurvivor(week: Week, cleaned: FormData): (r: Outcome<PicksError>)
    ensures r == Pass <==> Distinct(PickedTeams(cleaned, SurvivorPicksRequired(week)))
    ensures r != Pass ==> r == Fail(DuplicateSurvivorTeam)
  {
    var picked := PickedTeams(cleaned, SurvivorPicksRequired(week));
    DistinctIffSetSize(picked);
    if |picked| != |SetOf(picked)| then Fail(DuplicateSurvivorTeam) else Pass
  }

  /** `survivor_form.is_valid()`. */
  predicate SurvivorValid(week: Week, fields: map<FieldName, FormField>, data: FormData)
  {
    FieldsValid(fields, data) && CleanSurvivor(week, CleanedData(fields, data)) == Pass
  }

  /** The fields a week's survivor form has, as SurvivorFields builds them. */
  ghost predicate IsSurvivorForm(week: Week, available: set<TeamId>, fields: map<FieldName, FormField>)
  {
    (forall n :: n in fields <==> exists i :: 1 <= i <= SurvivorPicksRequired(week) && n == SurvivorSlot(i)) &&
    (forall n :: n in fields ==> fields[n] == ChoiceField(available))
  }

  /**
    An accepted survivor submission fills each of the week's slots with a
    different team the user has not used this season.
   */
  lemma AcceptedSurvivorPicks(week: Week, available: set<TeamId>, fields: map<FieldName, FormField>, data: FormData)
    requires IsSurvivorForm(week, available, fields)
    requires SurvivorValid(week, fields, data)
    ensures forall i :: 1 <= i <= SurvivorPicksRequired(week) ==> SurvivorSlot(i) in data && data[SurvivorSlot(i)] in available
    ensures forall i, j :: 1 <= i < j <= SurvivorPicksRequired(week) ==> data[SurvivorSlot(i)] != data[SurvivorSlot(j)]
  {
    var n := SurvivorPicksRequired(week);
    var cleaned := CleanedData(fields, data);
    forall i | 1 <= i <= n
      ensures SurvivorSlot(i) in cleaned && data[SurvivorSlot(i)] in available
    {
      assert SurvivorSlot(i) in fields;
      assert FieldAccepts(fields[SurvivorSlot(i)], data[SurvivorSlot(i)]);
    }
    PickedTeamsAll(cleaned, n);
    var picked := PickedTeams(cleaned, n);
    forall i, j | 1 <= i < j <= n
      ensures data[SurvivorSlot(i)] != data[SurvivorSlot(j)]
    {
      assert picked[i - 1] != picked[j - 1];
    }
  }

  /**
    A team the user has picked in any week of the season, this week
    included, cannot be picked again: a submission naming it is rejected.
   */
  lemma UsedTeamRejected(week: Week, user: User, teams: seq<Team>, picks: seq<SurvivorPick>, weeks: map<WeekId, Week>,
                         fields: map<FieldName, FormField>, data: FormData, p: SurvivorPick, slot: nat)
    requires IsSurvivorForm(week, AvailableTeams(teams, UsedTeams(picks, weeks, user, week.season)), fields)
    requires p in picks && p.user == user && p.week in weeks && weeks[p.week].season == week.season
    requires 1 <= slot <= SurvivorPicksRequired(week) && SurvivorSlot(slot) in data && data[SurvivorSlot(slot)] == p.pickedTeam
    ensures !SurvivorValid(week, fields, data)
  {
    assert p.pickedTeam in UsedTeams(picks, weeks, user, week.season);
    assert SurvivorSlot(slot) in fields;
  }

  /** In an even week, naming the same team in both slots is rejected. */
  lemma SameTeamTwiceRejected(week: Week, available: set<TeamId>, fields: map<FieldName, FormField>, data: FormData)
    requires IsSurvivorForm(week, available, fields)
    requires week.weekNumber % 2 == 0
    requires SurvivorSlot(1) in data && SurvivorSlot(2) in data && data[SurvivorSlot(1)] == data[SurvivorSlot(2)]
    ensures !SurvivorValid(week, fields, data)
  {
    if SurvivorValid(week, fields, data) {
      AcceptedSurvivorPicks(week, available, fields, data);
    }
  }
}
