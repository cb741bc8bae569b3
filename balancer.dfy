/**
 * The team-balancing engine (utils/balancer.ts).
 *
 * `GenerateBalancedTeams` is the imperative procedure: it sorts a copy of
 * the pool by goalkeeping rating, seeds each team with one keeper, sorts the
 * remaining players by field skill and places them one at a time. It is
 * proved equal to the functional specification `BalancedTeams`, and the
 * lemmas below prove what that specification promises: a partition of the
 * input, team sizes within one of each other, the keeper seeding, the order
 * of the field players and the greedy placement rule.
 */
module Balancer {
  import opened Types
  import opened StableSort

  const TeamAName := "Equipo 1"
  const TeamBName := "Equipo 2"

  // ---------------------------------------------------------------------
  // Team statistics
  // ---------------------------------------------------------------------

  /** The sum of the players' `skill`, accumulated left to right as `reduce` does. */
  function SumSkill(ps: seq<Player>): (r: real)
    ensures ps == [] ==> r == 0.0
  {
    if ps == [] then 0.0 else SumSkill(ps[..|ps| - 1]) + ps[|ps| - 1].skill
  }

  lemma {:induction false} SumSkillAppend(a: seq<Player>, b: seq<Player>)
    ensures SumSkill(a + b) == SumSkill(a) + SumSkill(b)
  {
    if b == [] {
      assert a + b == a;
    } else {
      assert (a + b)[..|a + b| - 1] == a + b[..|b| - 1];
      SumSkillAppend(a, b[..|b| - 1]);
    }
  }

  lemma SumSkillPair(p: Player, q: Player)
    ensures SumSkill([p]) == p.skill && SumSkill([p, q]) == p.skill + q.skill
  {
  }

  /** Reordering the players does not change their total skill. */
  lemma {:induction false} SumSkillPermutation(s: seq<Player>, t: seq<Player>)
    requires multiset(s) == multiset(t)
    ensures SumSkill(s) == SumSkill(t)
    decreases |s|
  {
    if s == [] {
      assert |t| == |multiset(t)| == 0;
    } else {
      var x := s[|s| - 1];
      var init := s[..|s| - 1];
      assert s == init + [x];
      assert x in multiset(t);
      var i :| 0 <= i < |t| && t[i] == x;
      var rest := t[..i] + t[i + 1..];
      assert t == t[..i] + [x] + t[i + 1..];
      assert multiset(t) == multiset(t[..i]) + multiset{x} + multiset(t[i + 1..]);
      assert multiset(rest) == multiset(t[..i]) + multiset(t[i + 1..]);
      assert multiset(s) == multiset(init) + multiset{x};
      assert multiset(init) == multiset(s) - multiset{x};
      assert multiset(rest) == multiset(t) - multiset{x};
      SumSkillPermutation(init, rest);
      SumSkillAppend(t[..i] + [x], t[i + 1..]);
      SumSkillAppend(t[..i], [x]);
      SumSkillAppend(t[..i], t[i + 1..]);
      assert [x][..0] == [];
    }
  }

  /** Each skill within `[lo, hi]` bounds the total by the count. */
  lemma {:induction false} SumSkillBounds(ps: seq<Player>, lo: real, hi: real)
    requires forall i :: 0 <= i < |ps| ==> lo <= ps[i].skill <= hi
    ensures lo * |ps| as real <= SumSkill(ps) <= hi * |ps| as real
  {
    if ps != [] {
      SumSkillBounds(ps[..|ps| - 1], lo, hi);
    }
  }

  /**
   * The summary of one team: its name and players unchanged, the total of
   * their skills, and the mean skill (zero for an empty team).
   */
  function CalculateTeamStats(players: seq<Player>, name: string): (t: Team)
    ensures t.name == name && t.players == players
    ensures t.totalSkill == SumSkill(players)
    ensures |players| == 0 ==> t.averageSkill == 0.0
    ensures |players| > 0 ==> t.averageSkill * |players| as real == t.totalSkill
  {
    var total := SumSkill(players);
    Team(name, players, total, if |players| > 0 then total / |players| as real else 0.0)
  }

  /** The mean skill of a non-empty team lies within the range of its members' skills. */
  lemma AverageWithinRange(players: seq<Player>, name: string, lo: real, hi: real)
    requires |players| > 0
    requires forall i :: 0 <= i < |players| ==> lo <= players[i].skill <= hi
    ensures lo <= CalculateTeamStats(players, name).averageSkill <= hi
  {
    SumSkillBounds(players, lo, hi);
    var n := |players| as real;
    var avg := CalculateTeamStats(players, name).averageSkill;
    assert avg * n == SumSkill(players);
  }

  /** `|a.totalSkill - b.totalSkill|`, reported as the match's imbalance. */
  function SkillDifference(a: Team, b: Team): (d: real)
    ensures d >= 0.0
    ensures d == a.totalSkill - b.totalSkill || d == b.totalSkill - a.totalSkill
  {
    if a.totalSkill >= b.totalSkill then a.totalSkill - b.totalSkill else b.totalSkill - a.totalSkill
  }

  /** The difference does not depend on which team is listed first. */
  lemma SkillDifferenceSymmetric(a: Team, b: Team)
    ensures SkillDifference(a, b) == SkillDifference(b, a)
  {
  }

  // ---------------------------------------------------------------------
  // Sort keys
  // ---------------------------------------------------------------------

  /** `p.positionSkills[Position.GK]`, the key of the keeper sort. */
  function GoalkeeperRating(p: Player): (r: real)
    ensures r == p.positionSkills.gk
  {
    p.positionSkills.Rating(GK)
  }

  /** The mean of the three outfield ratings, which orders the field players. */
  function FieldSkill(p: Player): (r: real)
    ensures var s := p.positionSkills;
      (r >= s.def || r >= s.mid || r >= s.fwd) && (r <= s.def || r <= s.mid || r <= s.fwd)
  {
    var s := p.positionSkills;
    (s.Rating(DEF) + s.Rating(MID) + s.Rating(FWD)) / 3.0
  }

  // ---------------------------------------------------------------------
  // The greedy split, as functions
  // ---------------------------------------------------------------------

  /** The two teams while they are being filled. */
  datatype Split = Split(a: seq<Player>, b: seq<Player>)

  predicate SizesWithinOne(s: Split) {
    -1 <= |s.a| - |s.b| <= 1
  }

  /**
   * Where one field player goes: to the smaller team; between teams of equal
   * size, to team A exactly when A's skill sum is not above B's.
   */
  function Place(s: Split, p: Player): (r: Split)
    ensures r == Split(s.a + [p], s.b) || r == Split(s.a, s.b + [p])
    ensures |s.a| < |s.b| ==> r.a == s.a + [p]
    ensures |s.b| < |s.a| ==> r.b == s.b + [p]
    ensures |s.a| == |s.b| ==> (r.a == s.a + [p] <==> SumSkill(s.a) <= SumSkill(s.b))
  {
    if |s.a| < |s.b| then Split(s.a + [p], s.b)
    else if |s.b| < |s.a| then Split(s.a, s.b + [p])
    else if SumSkill(s.a) <= SumSkill(s.b) then Split(s.a + [p], s.b)
    else Split(s.a, s.b + [p])
  }

  /** One placement keeps the sizes within one of each other. */
  lemma PlaceKeepsSizesWithinOne(s: Split, p: Player)
    requires SizesWithinOne(s)
    ensures SizesWithinOne(Place(s, p))
  {
  }

  /** The single left-to-right greedy pass over the field players. */
  function Distribute(field: seq<Player>, s: Split): (r: Split)
    ensures s.a <= r.a && s.b <= r.b
    ensures |r.a| + |r.b| == |s.a| + |s.b| + |field|
    decreases |field|
  {
    if field == [] then s else Distribute(field[1..], Place(s, field[0]))
  }

  /** Seed team A with the first of the keeper ordering and team B with the second. */
  function SeedKeepers(byGoalkeeping: seq<Player>): (r: Split)
    ensures |r.a| == (if |byGoalkeeping| >= 1 then 1 else 0)
    ensures |r.b| == (if |byGoalkeeping| >= 2 then 1 else 0)
    ensures r.a + r.b + AfterKeepers(byGoalkeeping) == byGoalkeeping
  {
    Split(if |byGoalkeeping| > 0 then [byGoalkeeping[0]] else [],
          if |byGoalkeeping| > 1 then [byGoalkeeping[1]] else [])
  }

  /** Everything after the first two, as `slice(2)` gives it. */
  function AfterKeepers(byGoalkeeping: seq<Player>): (r: seq<Player>)
    ensures |r| == if |byGoalkeeping| < 2 then 0 else |byGoalkeeping| - 2
    ensures forall i :: 0 <= i < |r| ==> r[i] == byGoalkeeping[i + 2]
  {
    if |byGoalkeeping| < 2 then [] else byGoalkeeping[2..]
  }

  /** The pool in stable descending order of goalkeeping rating. */
  function KeeperOrder(ps: seq<Player>): (r: seq<Player>)
    ensures |r| == |ps|
  {
    SortDesc(ps, GoalkeeperRating)
  }

  /** The non-keepers in stable descending order of field skill. */
  function FieldOrder(ps: seq<Player>): (r: seq<Player>)
    ensures |r| == if |ps| < 2 then 0 else |ps| - 2
  {
    SortDesc(AfterKeepers(KeeperOrder(ps)), FieldSkill)
  }

  /** The final split of the pool. */
  function Teams(ps: seq<Player>): (r: Split)
    ensures |r.a| + |r.b| == |ps|
  {
    Distribute(FieldOrder(ps), SeedKeepers(KeeperOrder(ps)))
  }

  /** The result `generateBalancedTeams` returns for `ps`. */
  function BalancedTeams(ps: seq<Player>): (r: MatchResult)
    ensures r.teamA.name == TeamAName && r.teamB.name == TeamBName
    ensures r.teamA.totalSkill == SumSkill(r.teamA.players)
    ensures r.teamB.totalSkill == SumSkill(r.teamB.players)
    ensures r.skillDifference == SkillDifference(r.teamA, r.teamB)
  {
    if |ps| == 0 then
      MatchResult(CalculateTeamStats([], TeamAName), CalculateTeamStats([], TeamBName), 0.0)
    else
      var split := Teams(ps);
      var teamA := CalculateTeamStats(split.a, TeamAName);
      var teamB := CalculateTeamStats(split.b, TeamBName);
      MatchResult(teamA, teamB, SkillDifference(teamA, teamB))
  }

  // ---------------------------------------------------------------------
  // Properties of the greedy pass
  // ---------------------------------------------------------------------

  /** Every field player lands in exactly one team. */
  lemma {:induction false} DistributePartition(field: seq<Player>, s: Split)
    ensures multiset(Distribute(field, s).a) + multiset(Distribute(field, s).b)
         == multiset(s.a) + multiset(s.b) + multiset(field)
    decreases |field|
  {
    if field != [] {
      DistributePartition(field[1..], Place(s, field[0]));
      assert field == [field[0]] + field[1..];
    }
  }

  /** Sizes stay within one of each other after every placement. */
  lemma {:induction false} DistributeSizes(field: seq<Player>, s: Split)
    requires SizesWithinOne(s)
    ensures SizesWithinOne(Distribute(field, s))
    decreases |field|
  {
    if field != [] {
      PlaceKeepsSizesWithinOne(s, field[0]);
      DistributeSizes(field[1..], Place(s, field[0]));
    }
  }

  /** All keys of `s` from index `k` on are at most `hi`. */
  ghost predicate KeysAtMost(s: seq<Player>, k: nat, key: Player -> real, hi: real) {
    forall i :: k <= i < |s| ==> key(s[i]) <= hi
  }

  /** All keys of `s` from index `k` on are at least `lo`. */
  ghost predicate KeysAtLeast(s: seq<Player>, k: nat, key: Player -> real, lo: real) {
    forall i :: k <= i < |s| ==> key(s[i]) >= lo
  }

  /** What the pass appends comes from `field`, so it respects any upper bound on `field`. */
  lemma {:induction false} DistributeKeysAtMost(field: seq<Player>, s: Split, ka: nat, kb: nat,
                                                key: Player -> real, hi: real)
    requires KeysAtMost(field, 0, key, hi)
    requires KeysAtMost(s.a, ka, key, hi) && KeysAtMost(s.b, kb, key, hi)
    ensures KeysAtMost(Distribute(field, s).a, ka, key, hi)
    ensures KeysAtMost(Distribute(field, s).b, kb, key, hi)
    decreases |field|
  {
    if field != [] {
      var s' := Place(s, field[0]);
      assert KeysAtMost(s'.a, ka, key, hi) && KeysAtMost(s'.b, kb, key, hi) by {
        assert key(field[0]) <= hi;
      }
      assert KeysAtMost(field[1..], 0, key, hi) by {
        forall i | 0 <= i < |field[1..]| ensures key(field[1..][i]) <= hi {
          assert field[1..][i] == field[i + 1];
        }
      }
      DistributeKeysAtMost(field[1..], s', ka, kb, key, hi);
    }
  }

  /**
   * Fed a sorted field, the pass appends to each team in non-increasing
   * order of field skill.
   */
  lemma {:induction false} DistributeSortedTails(field: seq<Player>, s: Split, ka: nat, kb: nat)
    requires SortedDesc(field, FieldSkill)
    requires ka <= |s.a| && kb <= |s.b|
    requires SortedDesc(s.a[ka..], FieldSkill) && SortedDesc(s.b[kb..], FieldSkill)
    requires forall j :: 0 <= j < |field| ==> KeysAtLeast(s.a, ka, FieldSkill, FieldSkill(field[j]))
    requires forall j :: 0 <= j < |field| ==> KeysAtLeast(s.b, kb, FieldSkill, FieldSkill(field[j]))
    ensures SortedDesc(Distribute(field, s).a[ka..], FieldSkill)
    ensures SortedDesc(Distribute(field, s).b[kb..], FieldSkill)
    decreases |field|
  {
    if field != [] {
      var p := field[0];
      var s' := Place(s, p);
      assert KeysAtLeast(s.a, ka, FieldSkill, FieldSkill(p)) && KeysAtLeast(s.b, kb, FieldSkill, FieldSkill(p));
      assert SortedDesc(s'.a[ka..], FieldSkill) && SortedDesc(s'.b[kb..], FieldSkill) by {
        if s'.a == s.a + [p] {
          assert s'.a[ka..] == s.a[ka..] + [p];
        } else {
          assert s'.b[kb..] == s.b[kb..] + [p];
        }
      }
      forall j | 0 <= j < |field[1..]|
        ensures KeysAtLeast(s'.a, ka, FieldSkill, FieldSkill(field[1..][j]))
        ensures KeysAtLeast(s'.b, kb, FieldSkill, FieldSkill(field[1..][j]))
      {
        assert field[1..][j] == field[j + 1];
        assert KeysAtLeast(s.a, ka, FieldSkill, FieldSkill(field[j + 1]));
        assert KeysAtLeast(s.b, kb, FieldSkill, FieldSkill(field[j + 1]));
        assert FieldSkill(p) >= FieldSkill(field[j + 1]);
      }
      assert SortedDesc(field[1..], FieldSkill) by {
        forall i, j | 0 <= i < j < |field[1..]|
          ensures FieldSkill(field[1..][i]) >= FieldSkill(field[1..][j])
        {
          assert field[1..][i] == field[i + 1] && field[1..][j] == field[j + 1];
        }
      }
      DistributeSortedTails(field[1..], s', ka, kb);
    }
  }

  // ---------------------------------------------------------------------
  // Properties of the whole engine
  // ---------------------------------------------------------------------

  lemma KeeperOrderFacts(ps: seq<Player>)
    ensures |KeeperOrder(ps)| == |ps|
    ensures multiset(KeeperOrder(ps)) == multiset(ps)
    ensures SortedDesc(KeeperOrder(ps), GoalkeeperRating)
    ensures multiset(FieldOrder(ps)) == multiset(AfterKeepers(KeeperOrder(ps)))
    ensures SortedDesc(FieldOrder(ps), FieldSkill)
  {
    SortDescPermutation(ps, GoalkeeperRating);
    SortDescSorted(ps, GoalkeeperRating);
    SortDescPermutation(AfterKeepers(KeeperOrder(ps)), FieldSkill);
    SortDescSorted(AfterKeepers(KeeperOrder(ps)), FieldSkill);
  }

  /** With no players, two empty teams and no difference (utils/balancer.ts:21-27). */
  lemma EmptyPool()
    ensures BalancedTeams([]).teamA == Team(TeamAName, [], 0.0, 0.0)
    ensures BalancedTeams([]).teamB == Team(TeamBName, [], 0.0, 0.0)
    ensures BalancedTeams([]).skillDifference == 0.0
  {
  }

  /** Every input player is in exactly one team, and the skill totals add up. */
  lemma BalancedTeamsPartition(ps: seq<Player>)
    ensures multiset(BalancedTeams(ps).teamA.players) + multiset(BalancedTeams(ps).teamB.players)
         == multiset(ps)
    ensures BalancedTeams(ps).teamA.totalSkill + BalancedTeams(ps).teamB.totalSkill == SumSkill(ps)
  {
    if ps != [] {
      var order := KeeperOrder(ps);
      KeeperOrderFacts(ps);
      var seed := SeedKeepers(order);
      DistributePartition(FieldOrder(ps), seed);
      assert order == seed.a + seed.b + AfterKeepers(order);
      var r := BalancedTeams(ps);
      var both := r.teamA.players + r.teamB.players;
      assert multiset(both) == multiset(ps);
      SumSkillAppend(r.teamA.players, r.teamB.players);
      SumSkillPermutation(both, ps);
    }
  }

  /** Team sizes add up to the pool and differ by at most one. */
  lemma BalancedTeamsSizes(ps: seq<Player>)
    ensures |BalancedTeams(ps).teamA.players| + |BalancedTeams(ps).teamB.players| == |ps|
    ensures -1 <= |BalancedTeams(ps).teamA.players| - |BalancedTeams(ps).teamB.players| <= 1
  {
    if ps != [] {
      KeeperOrderFacts(ps);
      DistributeSizes(FieldOrder(ps), SeedKeepers(KeeperOrder(ps)));
    }
  }

  /**
   * Keeper seeding: team A starts with the first player of the stable
   * goalkeeping order and team B with the second; a lone player forms
   * team A by themself.
   */
  lemma BalancedTeamsKeepers(ps: seq<Player>)
    ensures |ps| >= 1 ==>
      |BalancedTeams(ps).teamA.players| >= 1 && BalancedTeams(ps).teamA.players[0] == KeeperOrder(ps)[0]
    ensures |ps| >= 2 ==>
      |BalancedTeams(ps).teamB.players| >= 1 && BalancedTeams(ps).teamB.players[0] == KeeperOrder(ps)[1]
    ensures |ps| == 1 ==> BalancedTeams(ps).teamA.players == ps && BalancedTeams(ps).teamB.players == []
  {
  }

  /**
   * Team A's keeper is the earliest input player with the highest
   * goalkeeping rating; team B's keeper rates no lower than any field player.
   */
  lemma BestGoalkeepers(ps: seq<Player>) returns (i: nat)
    requires |ps| >= 1
    ensures i < |ps| && BalancedTeams(ps).teamA.players[0] == ps[i]
    ensures forall j :: 0 <= j < |ps| ==> GoalkeeperRating(ps[j]) <= GoalkeeperRating(ps[i])
    ensures forall j :: 0 <= j < i ==> GoalkeeperRating(ps[j]) < GoalkeeperRating(ps[i])
    ensures |ps| >= 2 ==>
      var r := BalancedTeams(ps);
      |r.teamB.players| >= 1 &&
      KeysAtMost(r.teamA.players, 1, GoalkeeperRating, GoalkeeperRating(r.teamB.players[0])) &&
      KeysAtMost(r.teamB.players, 1, GoalkeeperRating, GoalkeeperRating(r.teamB.players[0]))
  {
    BalancedTeamsKeepers(ps);
    i := SortDescHead(ps, GoalkeeperRating);
    if |ps| >= 2 {
      var order := KeeperOrder(ps);
      KeeperOrderFacts(ps);
      var hi := GoalkeeperRating(order[1]);
      var rest := AfterKeepers(order);
      assert KeysAtMost(rest, 0, GoalkeeperRating, hi) by {
        forall j | 0 <= j < |rest| ensures GoalkeeperRating(rest[j]) <= hi {
          assert rest[j] == order[j + 2];
        }
      }
      assert KeysAtMost(FieldOrder(ps), 0, GoalkeeperRating, hi) by {
        forall j | 0 <= j < |FieldOrder(ps)| ensures GoalkeeperRating(FieldOrder(ps)[j]) <= hi {
          assert FieldOrder(ps)[j] in multiset(rest);
        }
      }
      DistributeKeysAtMost(FieldOrder(ps), SeedKeepers(order), 1, 1, GoalkeeperRating, hi);
    }
  }

  /**
   * The field players of each team (everyone after its keeper) joined it in
   * non-increasing order of field skill.
   */
  lemma BalancedTeamsFieldOrder(ps: seq<Player>)
    ensures |BalancedTeams(ps).teamA.players| >= 1 ==> SortedDesc(BalancedTeams(ps).teamA.players[1..], FieldSkill)
    ensures |BalancedTeams(ps).teamB.players| >= 1 ==> SortedDesc(BalancedTeams(ps).teamB.players[1..], FieldSkill)
  {
    if ps != [] {
      KeeperOrderFacts(ps);
      var seed := SeedKeepers(KeeperOrder(ps));
      var ka, kb := |seed.a|, |seed.b|;
      DistributeSortedTails(FieldOrder(ps), seed, ka, kb);
      if |ps| == 1 {
        BalancedTeamsKeepers(ps);
      } else {
        assert ka == 1 && kb == 1;
      }
    }
  }

  /** A lone player is team A, and the difference is the size of their skill. */
  lemma SinglePlayer(p: Player)
    ensures BalancedTeams([p]).teamA.players == [p]
    ensures BalancedTeams([p]).teamB.players == []
    ensures BalancedTeams([p]).skillDifference == if p.skill >= 0.0 then p.skill else -p.skill
  {
  }

  /** A player whose three outfield ratings all equal `skill`. */
  function Sample(id: string, skill: real, gk: real): Player {
    Player(id, id, skill, [], PositionSkills(gk, skill, skill, skill))
  }

  // A worked pool of four: (skill, goalkeeping) = (8, 9), (6, 8), (5, 2), (4, 1).
  const P1 := Sample("p1", 8.0, 9.0)
  const P2 := Sample("p2", 6.0, 8.0)
  const P3 := Sample("p3", 5.0, 2.0)
  const P4 := Sample("p4", 4.0, 1.0)

  lemma ExampleKeeperOrder()
    ensures KeeperOrder([P3, P1, P4, P2]) == [P1, P2, P3, P4]
  {
    var ps, gk := [P3, P1, P4, P2], GoalkeeperRating;
    assert ps[..1] == [P3] && ps[..2] == [P3, P1] && ps[..3] == [P3, P1, P4];
    assert [P3][..0] == [] && [P1][..0] == [];
    assert [P1, P3][..1] == [P1] && [P1, P3, P4][..2] == [P1, P3];
    assert [P3, P1][..1] == [P3] && [P3, P1, P4][..2] == [P3, P1];
    assert SortDesc([P3], gk) == [P3];
    assert InsertDesc([P3], P1, gk) == [P1, P3];
    assert SortDesc([P3, P1], gk) == [P1, P3];
    assert InsertDesc([P1, P3], P4, gk) == [P1, P3, P4];
    assert SortDesc([P3, P1, P4], gk) == [P1, P3, P4];
    assert InsertDesc([P1], P2, gk) == [P1, P2];
    assert InsertDesc([P1, P3], P2, gk) == [P1, P2, P3];
    assert InsertDesc([P1, P3, P4], P2, gk) == [P1, P2, P3, P4];
  }

  lemma ExampleTeams()
    ensures Teams([P3, P1, P4, P2]) == Split([P1, P4], [P2, P3])
  {
    var ps := [P3, P1, P4, P2];
    ExampleKeeperOrder();
    assert AfterKeepers([P1, P2, P3, P4]) == [P3, P4];
    assert [P3, P4][..1] == [P3] && [P3][..0] == [];
    assert SortDesc([P3], FieldSkill) == [P3];
    assert FieldOrder(ps) == [P3, P4];
    var seed := Split([P1], [P2]);
    SumSkillPair(P1, P4);
    SumSkillPair(P2, P3);
    assert Place(seed, P3) == Split([P1], [P2, P3]);
    assert [P3, P4][1..] == [P4];
    assert Distribute([P3, P4], seed) == Split([P1, P4], [P2, P3]);
  }

  /**
   * The worked pool: the two best goalkeepers are seeded, the stronger
   * field player joins the weaker keeper, and the last one evens the sizes.
   */
  lemma FourPlayerExample()
    ensures var r := BalancedTeams([P3, P1, P4, P2]);
      r.teamA.players == [P1, P4] && r.teamB.players == [P2, P3] && r.skillDifference == 1.0
  {
    ExampleTeams();
    SumSkillPair(P1, P4);
    SumSkillPair(P2, P3);
  }

  // ---------------------------------------------------------------------
  // The procedure
  // ---------------------------------------------------------------------

  /**
   * The greedy pass over the sorted field players (the `forEach` loop):
   * each player joins the smaller team, or on equal sizes the team whose
   * current skill sum is lower, team A on a tie. The sums are recomputed
   * before every placement.
   */
  method PlaceFieldPlayers(fieldPlayers: array<Player>, seedA: seq<Player>, seedB: seq<Player>)
    returns (teamAPlayers: seq<Player>, teamBPlayers: seq<Player>)
    ensures Split(teamAPlayers, teamBPlayers) == Distribute(fieldPlayers[..], Split(seedA, seedB))
  {
    ghost var field := fieldPlayers[..];
    teamAPlayers, teamBPlayers := seedA, seedB;
    var i := 0;
    while i < fieldPlayers.Length
      invariant 0 <= i <= fieldPlayers.Length
      invariant Distribute(field[i..], Split(teamAPlayers, teamBPlayers)) == Distribute(field, Split(seedA, seedB))
    {
      var player := fieldPlayers[i];
      ghost var before := Split(teamAPlayers, teamBPlayers);
      assert field[i..] == [player] + field[i + 1..];
      var skillA := SumSkill(teamAPlayers);
      var skillB := SumSkill(teamBPlayers);
      if |teamAPlayers| < |teamBPlayers| {
        teamAPlayers := teamAPlayers + [player];
      } else if |teamBPlayers| < |teamAPlayers| {
        teamBPlayers := teamBPlayers + [player];
      } else if skillA <= skillB {
        teamAPlayers := teamAPlayers + [player];
      } else {
        teamBPlayers := teamBPlayers + [player];
      }
      assert Split(teamAPlayers, teamBPlayers) == Place(before, player);
      i := i + 1;
    }
    assert field[i..] == [];
  }

  /** A fresh array holding `ps` sorted, as `[...ps].sort(comparator)` gives it. */
  method SortedCopy(ps: seq<Player>, key: Player -> real) returns (sorted: array<Player>)
    ensures fresh(sorted)
    ensures sorted[..] == SortDesc(ps, key)
  {
    sorted := new Player[|ps|](i requires 0 <= i < |ps| => ps[i]);
    assert sorted[..] == ps;
    SortDescending(sorted, key);
  }

  /**
   * Steps 1 to 3 of the procedure on a non-empty pool: sort a copy by
   * goalkeeping rating, seed one keeper per team, sort the rest by field
   * skill and place them greedily.
   */
  method SplitPool(availablePlayers: seq<Player>) returns (teamAPlayers: seq<Player>, teamBPlayers: seq<Player>)
    ensures Split(teamAPlayers, teamBPlayers) == Teams(availablePlayers)
  {
    var n := |availablePlayers|;

    // 1. sort a copy by goalkeeping rating
    var sortedByGK := SortedCopy(availablePlayers, GoalkeeperRating);
    var order := sortedByGK[..];

    var goalkeepers := if n < 2 then order else order[..2];
    var seedA: seq<Player> := [];
    var seedB: seq<Player> := [];
    if |goalkeepers| > 0 { seedA := seedA + [goalkeepers[0]]; }
    if |goalkeepers| > 1 { seedB := seedB + [goalkeepers[1]]; }
    assert Split(seedA, seedB) == SeedKeepers(order);

    // 2. sort the remaining players by field skill
    var fieldPlayers := SortedCopy(AfterKeepers(order), FieldSkill);

    // 3. one greedy pass
    teamAPlayers, teamBPlayers := PlaceFieldPlayers(fieldPlayers, seedA, seedB);
  }

  /**
   * Split the available players into two teams and summarise both; an
   * empty pool gives two empty teams.
   */
  method GenerateBalancedTeams(availablePlayers: seq<Player>) returns (result: MatchResult)
    ensures result == BalancedTeams(availablePlayers)
    ensures multiset(result.teamA.players) + multiset(result.teamB.players) == multiset(availablePlayers)
    ensures |result.teamA.players| + |result.teamB.players| == |availablePlayers|
    ensures -1 <= |result.teamA.players| - |result.teamB.players| <= 1
  {
    BalancedTeamsPartition(availablePlayers);
    BalancedTeamsSizes(availablePlayers);
    if |availablePlayers| == 0 {
      return MatchResult(CalculateTeamStats([], TeamAName), CalculateTeamStats([], TeamBName), 0.0);
    }
    var teamAPlayers, teamBPlayers := SplitPool(availablePlayers);
    var teamA := CalculateTeamStats(teamAPlayers, TeamAName);
    var teamB := CalculateTeamStats(teamBPlayers, TeamBName);
    result := MatchResult(teamA, teamB, SkillDifference(teamA, teamB));
  }
}
