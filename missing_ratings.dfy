/**
 * Players added from the roster form carry no ratings.
 *
 * `handleAddPlayer` (App.tsx:46-51) builds a player with an id, a name, a
 * skill and positions, but no `positionSkills`. The keeper sort's
 * comparator (utils/balancer.ts:31) reads `positionSkills[Position.GK]` of
 * both players it compares, which throws a TypeError when `positionSkills`
 * is missing. Here records whose ratings may be missing are `LoosePlayer`s,
 * the comparator reports a throw as `None`, and the insertion sort stops at
 * the first comparison that throws.
 *
 * As written, any pool of two or more players that holds such a player
 * makes the sort throw (`UnratedPlayerThrows`), so `generateMatch` never
 * produces a result for it. (In the running app the roster card, which is
 * not part of this model, reads the same missing record while rendering
 * and fails first.) The rest of the model gives form-added players
 * the lowest rating, 0, in every position (`App.UnratedSkills`); with every
 * player rated, the comparator never throws and the sort is exactly the
 * keeper ordering of the model (`RatedPoolSorts`).
 */
module MissingRatings {
  import opened Types
  import opened StableSort
  import opened Balancer
  import App

  /** A player record whose `positionSkills` may be absent. */
  datatype LoosePlayer = LoosePlayer(
    id: string,
    name: string,
    skill: real,
    positions: seq<Position>,
    positionSkills: Option<PositionSkills>)

  /** The record `handleAddPlayer` builds, as written: no ratings at all. */
  function NewPlayerAsWritten(freshId: string, name: string, skill: real, positions: seq<Position>): LoosePlayer {
    LoosePlayer(freshId, name, skill, positions, None)
  }

  /** A rated player seen as a loose record. */
  function Loosen(p: Player): LoosePlayer {
    LoosePlayer(p.id, p.name, p.skill, p.positions, Some(p.positionSkills))
  }

  function LoosenAll(ps: seq<Player>): (r: seq<LoosePlayer>)
    ensures |r| == |ps|
  {
    if ps == [] then [] else LoosenAll(ps[..|ps| - 1]) + [Loosen(ps[|ps| - 1])]
  }

  /** `p.positionSkills[Position.GK]`; `None` is the TypeError of reading a missing record. */
  function KeeperRatingAsWritten(p: LoosePlayer): (r: Option<real>)
    ensures r.None? <==> p.positionSkills.None?
    ensures p.positionSkills.Some? ==> r == Some(p.positionSkills.value.gk)
  {
    match p.positionSkills
    case None => None
    case Some(s) => Some(s.Rating(GK))
  }

  /**
   * The insertion step of `InsertDesc` with the comparator as written:
   * every comparison reads both players' keeper ratings, and a throw ends
   * the sort.
   */
  function InsertAsWritten(t: seq<LoosePlayer>, x: LoosePlayer): (r: Option<seq<LoosePlayer>>)
    ensures r.Some? ==> |r.value| == |t| + 1
  {
    if t == [] then Some([x])
    else
      var last := t[|t| - 1];
      match (KeeperRatingAsWritten(last), KeeperRatingAsWritten(x))
      case (Some(kl), Some(kx)) =>
        if kl < kx then
          match InsertAsWritten(t[..|t| - 1], x)
          case None => None
          case Some(ins) => Some(ins + [last])
        else Some(t + [x])
      case _ => None
  }

  /** The keeper sort with the comparator as written; `None` when it throws. */
  function SortAsWritten(s: seq<LoosePlayer>): (r: Option<seq<LoosePlayer>>)
    ensures r.Some? ==> |r.value| == |s|
  {
    if s == [] then Some([])
    else
      match SortAsWritten(s[..|s| - 1])
      case None => None
      case Some(t) => InsertAsWritten(t, s[|s| - 1])
  }

  /**
   * As written: a pool of two or more players that holds a player without
   * ratings makes the keeper sort throw.
   */
  lemma {:induction false} UnratedPlayerThrows(s: seq<LoosePlayer>, i: nat)
    requires |s| >= 2 && i < |s| && s[i].positionSkills.None?
    ensures SortAsWritten(s) == None
  {
    var init := s[..|s| - 1];
    if i == |s| - 1 {
      // `x` is unrated, and a non-empty sorted prefix is compared with it
    } else if |init| >= 2 {
      UnratedPlayerThrows(init, i);
    } else {
      assert init == [s[0]] && i == 0;
      assert init[..0] == [];
      assert SortAsWritten(init) == Some([s[0]]);
    }
  }

  /** A pool of one rated player and one player added from the form, as written. */
  lemma FormPlayerThrows()
    ensures SortAsWritten([NewPlayerAsWritten("new", "Ana", 5.0, [MID]), Loosen(P1)]) == None
  {
  }

  lemma LoosenAllSnoc(ps: seq<Player>, p: Player)
    ensures LoosenAll(ps + [p]) == LoosenAll(ps) + [Loosen(p)]
  {
  }

  /** With every player rated, one insertion as written succeeds and is `InsertDesc`. */
  lemma {:induction false} InsertRated(t: seq<Player>, x: Player)
    ensures InsertAsWritten(LoosenAll(t), Loosen(x)) == Some(LoosenAll(InsertDesc(t, x, GoalkeeperRating)))
  {
    if t != [] {
      var init, last := t[..|t| - 1], t[|t| - 1];
      assert t == init + [last];
      LoosenAllSnoc(init, last);
      var lt := LoosenAll(t);
      assert lt[..|lt| - 1] == LoosenAll(init) && lt[|lt| - 1] == Loosen(last);
      if GoalkeeperRating(last) < GoalkeeperRating(x) {
        InsertRated(init, x);
        LoosenAllSnoc(InsertDesc(init, x, GoalkeeperRating), last);
        assert InsertAsWritten(lt, Loosen(x))
            == Some(LoosenAll(InsertDesc(init, x, GoalkeeperRating)) + [Loosen(last)]);
      } else {
        LoosenAllSnoc(t, x);
        assert InsertAsWritten(lt, Loosen(x)) == Some(lt + [Loosen(x)]);
      }
    } else {
      assert [x][..0] == [];
      assert LoosenAll([x]) == [Loosen(x)];
      assert InsertDesc(t, x, GoalkeeperRating) == [x];
    }
  }

  /**
   * Corrected: when every player carries ratings, the keeper sort as
   * written never throws and yields exactly the model's keeper ordering.
   */
  lemma {:induction false} RatedPoolSorts(ps: seq<Player>)
    ensures SortAsWritten(LoosenAll(ps)) == Some(LoosenAll(KeeperOrder(ps)))
  {
    if ps != [] {
      var init, last := ps[..|ps| - 1], ps[|ps| - 1];
      var lp := LoosenAll(ps);
      assert lp[..|lp| - 1] == LoosenAll(init) && lp[|lp| - 1] == Loosen(last);
      RatedPoolSorts(init);
      InsertRated(SortDesc(init, GoalkeeperRating), last);
    }
  }

  /**
   * Corrected: the same pool, with the form's player given the zero
   * ratings the model adds, sorts without a throw.
   */
  lemma FormPlayerSorts()
    ensures var added := Player("new", "Ana", 5.0, [MID], App.UnratedSkills);
      SortAsWritten(LoosenAll([added, P1])) == Some(LoosenAll([P1, added]))
  {
    var added := Player("new", "Ana", 5.0, [MID], App.UnratedSkills);
    RatedPoolSorts([added, P1]);
    assert [added, P1][..1] == [added] && [added][..0] == [];
    assert SortDesc([added], GoalkeeperRating) == [added];
    assert GoalkeeperRating(added) < GoalkeeperRating(P1);
    assert InsertDesc([added], P1, GoalkeeperRating) == [P1, added];
    assert KeeperOrder([added, P1]) == [P1, added];
    assert [P1, added][..1] == [P1] && [P1][..0] == [];
  }
}
