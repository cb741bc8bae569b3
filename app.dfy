/**
 * The roster and match-setup state of the main screen (App.tsx).
 *
 * The component's state variables are the fields of `AppState`, and its
 * event handlers are the methods that update them. The rendering, the
 * browser storage calls, the random identifiers and the alert dialog are
 * not modelled: a stored roster and a new identifier arrive as parameters,
 * and a refused match generation is a `false` result.
 */
module App {
  import opened Types
  import Balancer

  // ---------------------------------------------------------------------
  // Loading a stored roster
  // ---------------------------------------------------------------------

  /**
   * A roster entry as stored: older entries carry a single `position`
   * instead of a `positions` array, or neither.
   */
  datatype StoredPlayer = StoredPlayer(
    id: string,
    name: string,
    skill: real,
    positions: Option<seq<Position>>,
    position: Option<Position>,
    positionSkills: PositionSkills)

  /** The positions a stored entry migrates to. */
  function MigratePositions(stored: StoredPlayer): (r: seq<Position>)
    ensures stored.positions.Some? ==> r == stored.positions.value
    ensures stored.positions.None? ==> |r| == 1
    ensures stored.positions.None? && stored.position.Some? ==> r == [stored.position.value]
    ensures stored.positions.None? && stored.position.None? ==> r == [MID]
  {
    match stored.positions
    case Some(ps) => ps
    case None => if stored.position.Some? then [stored.position.value] else [MID]
  }

  /**
   * `{...p, positions: ...}`: the entry with its positions migrated; the
   * legacy `position`, which `Player` does not carry, is dropped.
   */
  function Migrate(stored: StoredPlayer): (r: Player)
    ensures r.id == stored.id && r.name == stored.name && r.skill == stored.skill
    ensures r.positionSkills == stored.positionSkills
    ensures r.positions == MigratePositions(stored)
  {
    Player(stored.id, stored.name, stored.skill, MigratePositions(stored), stored.positionSkills)
  }

  /** The migration applied to a whole stored roster, entry by entry and in order. */
  function MigrateAll(saved: seq<StoredPlayer>): (r: seq<Player>)
    ensures |r| == |saved|
    ensures forall i :: 0 <= i < |r| ==>
      r[i].id == saved[i].id && r[i].name == saved[i].name && r[i].skill == saved[i].skill
      && r[i].positions == MigratePositions(saved[i]) && r[i].positionSkills == saved[i].positionSkills
  {
    seq(|saved|, i requires 0 <= i < |saved| => Migrate(saved[i]))
  }

  /** How a player is written back to storage: with a `positions` array; a `Player` has no legacy field to write. */
  function Store(p: Player): (r: StoredPlayer)
    ensures r.positions.Some? && r.position.None?
    ensures Migrate(r) == p
  {
    StoredPlayer(p.id, p.name, p.skill, Some(p.positions), None, p.positionSkills)
  }

  /** `JSON.stringify(players)`, entry by entry. */
  function StoreAll(ps: seq<Player>): (r: seq<StoredPlayer>)
    ensures |r| == |ps|
    ensures forall i :: 0 <= i < |r| ==> r[i].id == ps[i].id && Migrate(r[i]) == ps[i]
  {
    seq(|ps|, i requires 0 <= i < |ps| => Store(ps[i]))
  }

  /** Saving a roster and loading it again gives the same roster: the migration leaves migrated data alone. */
  lemma LoadAfterSave(ps: seq<Player>)
    ensures MigrateAll(StoreAll(ps)) == ps
  {
  }

  // ---------------------------------------------------------------------
  // Pure helpers behind the handlers
  // ---------------------------------------------------------------------

  /**
   * Whether `String.prototype.trim` removes `c`: white space and line
   * terminators, never a letter or a digit.
   */
  function IsTrimWhiteSpace(c: char): (b: bool)
    ensures b ==> !('0' <= c <= '9' || 'A' <= c <= 'Z' || 'a' <= c <= 'z')
  {
    c == '\t' || c == '\n' || c == '\U{000B}' || c == '\U{000C}' || c == '\r' || c == ' '
    || c == '\U{00A0}' || c == '\U{1680}' || ('\U{2000}' <= c <= '\U{200A}')
    || c == '\U{2028}' || c == '\U{2029}' || c == '\U{202F}' || c == '\U{205F}'
    || c == '\U{3000}' || c == '\U{FEFF}'
  }

  /** `s` without its leading white space. */
  function TrimStart(s: string): (r: string)
    ensures |r| <= |s| && r == s[|s| - |r|..]
    ensures forall i :: 0 <= i < |s| - |r| ==> IsTrimWhiteSpace(s[i])
    ensures r != [] ==> !IsTrimWhiteSpace(r[0])
  {
    if s != [] && IsTrimWhiteSpace(s[0]) then
      var r := TrimStart(s[1..]);
      assert forall i :: 1 <= i < |s| - |r| ==> s[i] == s[1..][i - 1];
      r
    else s
  }

  /** `s` without its trailing white space. */
  function TrimEnd(s: string): (r: string)
    ensures |r| <= |s| && r == s[..|r|]
    ensures forall i :: |r| <= i < |s| ==> IsTrimWhiteSpace(s[i])
    ensures r != [] ==> !IsTrimWhiteSpace(r[|r| - 1])
  {
    if s != [] && IsTrimWhiteSpace(s[|s| - 1]) then TrimEnd(s[..|s| - 1]) else s
  }

  /** `r` sits in `s` at index `i`, with only white space before and after it. */
  ghost predicate MiddleAt(s: string, r: string, i: int) {
    0 <= i <= |s| - |r| && r == s[i..i + |r|]
    && (forall k :: 0 <= k < i ==> IsTrimWhiteSpace(s[k]))
    && (forall k :: i + |r| <= k < |s| ==> IsTrimWhiteSpace(s[k]))
  }

  /**
   * `s.trim()`: the part of `s` between its leading and its trailing white
   * space, which neither starts nor ends with white space.
   */
  function Trim(s: string): (r: string)
    ensures exists i :: MiddleAt(s, r, i)
    ensures r != [] ==> !IsTrimWhiteSpace(r[0]) && !IsTrimWhiteSpace(r[|r| - 1])
  {
    var t := TrimStart(s);
    var r := TrimEnd(t);
    MiddleOfSuffix(s, t, r);
    r
  }

  /** A prefix of a suffix of `s`, with only white space cut on both sides, is a middle of `s`. */
  lemma MiddleOfSuffix(s: string, t: string, r: string)
    requires |t| <= |s| && t == s[|s| - |t|..]
    requires forall k :: 0 <= k < |s| - |t| ==> IsTrimWhiteSpace(s[k])
    requires |r| <= |t| && r == t[..|r|]
    requires forall k :: |r| <= k < |t| ==> IsTrimWhiteSpace(t[k])
    ensures MiddleAt(s, r, |s| - |t|)
  {
    var i := |s| - |t|;
    assert forall k :: i + |r| <= k < |s| ==> s[k] == t[k - i];
  }

  /** `!name.trim()`: the trimmed name is the empty string. */
  predicate IsBlank(name: string) {
    Trim(name) == []
  }

  /** A name is blank exactly when every character of it is white space. */
  lemma BlankIffWhiteSpace(name: string)
    ensures IsBlank(name) <==> forall i :: 0 <= i < |name| ==> IsTrimWhiteSpace(name[i])
  {
  }

  predicate NoDuplicates<T(==)>(s: seq<T>) {
    forall i, j :: 0 <= i < j < |s| ==> s[i] != s[j]
  }

  /** `s.filter(p => p !== pos)`: every other position, all its copies, in order. */
  function Without(s: seq<Position>, pos: Position): (r: seq<Position>)
    ensures forall q :: multiset(r)[q] == if q == pos then 0 else multiset(s)[q]
    ensures IsSubsequence(r, s)
  {
    if s == [] then []
    else if s[0] == pos then
      assert s == [s[0]] + s[1..];
      Without(s[1..], pos)
    else
      var rest := Without(s[1..], pos);
      assert s == [s[0]] + s[1..];
      assert ([s[0]] + rest)[1..] == rest;
      [s[0]] + rest
  }

  /**
   * The form's position list after clicking `pos`: an absent position is
   * appended; a present one is removed unless it is the only one left.
   */
  function TogglePosition(prev: seq<Position>, pos: Position): (r: seq<Position>)
    ensures pos !in prev ==> r == prev + [pos]
    ensures pos in prev && |prev| == 1 ==> r == prev
    ensures pos in prev && |prev| > 1 ==>
      pos !in r && IsSubsequence(r, prev)
      && forall q :: multiset(r)[q] == if q == pos then 0 else multiset(prev)[q]
    ensures |prev| > 0 && NoDuplicates(prev) ==> |r| > 0 && NoDuplicates(r)
  {
    if pos in prev then
      if |prev| == 1 then prev
      else
        var r := Without(prev, pos);
        var q := if prev[0] == pos then prev[1] else prev[0];
        assert NoDuplicates(prev) ==> q != pos && multiset(r)[q] > 0;
        assert multiset(r)[pos] == 0;
        SubsequenceKeepsNoDuplicates(r, prev);
        r
    else prev + [pos]
  }

  /** Clicking an unselected position twice leaves a non-empty list as it was. */
  lemma TogglePositionTwice(prev: seq<Position>, pos: Position)
    requires pos !in prev && |prev| > 0
    ensures TogglePosition(TogglePosition(prev, pos), pos) == prev
  {
    var once := prev + [pos];
    assert once[..|prev|] == prev;
    WithoutLast(prev, pos);
  }

  lemma {:induction false} WithoutLast(s: seq<Position>, pos: Position)
    requires pos !in s
    ensures Without(s + [pos], pos) == s
  {
    if s != [] {
      assert (s + [pos])[1..] == s[1..] + [pos];
      WithoutLast(s[1..], pos);
      assert s == [s[0]] + s[1..];
    }
  }

  /** Membership of one id flips; every other id keeps its membership. */
  function ToggleId(ids: set<string>, id: string): (r: set<string>)
    ensures id in r <==> id !in ids
    ensures forall other :: other != id ==> (other in r <==> other in ids)
  {
    if id in ids then ids - {id} else ids + {id}
  }

  /** Toggling the same id twice restores the selection. */
  lemma ToggleIdTwice(ids: set<string>, id: string)
    ensures ToggleId(ToggleId(ids, id), id) == ids
  {
  }

  /**
   * `new Set(players.map(p => p.id))`: exactly the ids carried by roster
   * players, never more ids than players.
   */
  function RosterIds(players: seq<Player>): (r: set<string>)
    ensures forall p :: p in players ==> p.id in r
    ensures forall id :: id in r ==> exists p :: p in players && p.id == id
    ensures |r| <= |players|
  {
    if players == [] then {}
    else
      var rest := RosterIds(players[1..]);
      assert forall p :: p in players ==> p == players[0] || p in players[1..];
      rest + {players[0].id}
  }

  /** `s` occurs in `t` in order, possibly with gaps. */
  predicate IsSubsequence<T(==)>(s: seq<T>, t: seq<T>)
    decreases |t|
  {
    if s == [] then true
    else if t == [] then false
    else if s[0] == t[0] then IsSubsequence(s[1..], t[1..])
    else IsSubsequence(s, t[1..])
  }

  lemma {:induction false} SubsequenceMembers<T>(s: seq<T>, t: seq<T>)
    requires IsSubsequence(s, t)
    ensures forall x :: x in s ==> x in t
    decreases |t|
  {
    if s != [] {
      if s[0] == t[0] {
        SubsequenceMembers(s[1..], t[1..]);
        assert forall x :: x in s ==> x == s[0] || x in s[1..];
      } else {
        SubsequenceMembers(s, t[1..]);
      }
    }
  }

  /** Dropping elements cannot create a duplicate. */
  lemma {:induction false} SubsequenceKeepsNoDuplicates<T>(s: seq<T>, t: seq<T>)
    requires IsSubsequence(s, t)
    ensures NoDuplicates(t) ==> NoDuplicates(s)
    decreases |t|
  {
    if s != [] && NoDuplicates(t) {
      assert NoDuplicates(t[1..]) by {
        forall i, j | 0 <= i < j < |t[1..]| ensures t[1..][i] != t[1..][j] {
          assert t[1..][i] == t[i + 1] && t[1..][j] == t[j + 1];
        }
      }
      if s[0] == t[0] {
        SubsequenceKeepsNoDuplicates(s[1..], t[1..]);
        SubsequenceMembers(s[1..], t[1..]);
        assert t[0] !in t[1..];
        forall i, j | 0 <= i < j < |s| ensures s[i] != s[j] {
          assert s[j] == s[1..][j - 1];
          if i > 0 { assert s[i] == s[1..][i - 1]; }
        }
      } else {
        SubsequenceKeepsNoDuplicates(s, t[1..]);
      }
    }
  }

  /**
   * The players whose id is (`keep`) or is not (`!keep`) in `ids`, in
   * roster order: every such player with all its copies, and nobody else.
   */
  function FilterByIds(players: seq<Player>, ids: set<string>, keep: bool): (r: seq<Player>)
    ensures forall p :: multiset(r)[p] == if (p.id in ids) == keep then multiset(players)[p] else 0
    ensures IsSubsequence(r, players)
  {
    if players == [] then []
    else
      var rest := FilterByIds(players[1..], ids, keep);
      assert players == [players[0]] + players[1..];
      if (players[0].id in ids) == keep then [players[0]] + rest else rest
  }

  /** `players.filter(p => p.id !== id)`: the roster without the players carrying `id`. */
  function WithoutId(players: seq<Player>, id: string): (r: seq<Player>)
    ensures forall p :: multiset(r)[p] == if p.id != id then multiset(players)[p] else 0
    ensures forall p :: p in r <==> p in players && p.id != id
    ensures IsSubsequence(r, players)
  {
    var r := FilterByIds(players, {id}, false);
    assert forall p :: p in r <==> multiset(r)[p] > 0;
    r
  }

  /** `players.filter(p => selectedPlayerIds.has(p.id))`: the selected players, in roster order. */
  function SelectedPlayers(players: seq<Player>, selected: set<string>): (r: seq<Player>)
    ensures forall p :: multiset(r)[p] == if p.id in selected then multiset(players)[p] else 0
    ensures forall p :: p in r <==> p in players && p.id in selected
    ensures IsSubsequence(r, players)
  {
    var r := FilterByIds(players, selected, true);
    assert forall p :: p in r <==> multiset(r)[p] > 0;
    r
  }

  /** Every selected id still belongs to a roster player after a deletion. */
  lemma DeleteKeepsSelectionInRoster(players: seq<Player>, selected: set<string>, id: string)
    requires selected <= RosterIds(players)
    ensures selected - {id} <= RosterIds(WithoutId(players, id))
  {
  }

  /** Selecting or deselecting a roster id keeps the selection inside the roster. */
  lemma ToggleKeepsSelectionInRoster(players: seq<Player>, selected: set<string>, id: string)
    requires selected <= RosterIds(players)
    requires id in RosterIds(players)
    ensures ToggleId(selected, id) <= RosterIds(players)
  {
  }

  // ---------------------------------------------------------------------
  // The component state
  // ---------------------------------------------------------------------

  /** Ratings given to a player added from the form, which has no rating inputs. */
  const UnratedSkills := PositionSkills(0.0, 0.0, 0.0, 0.0)

  const DefaultSkill := 5.0

  class AppState {
    var players: seq<Player>
    var selected: set<string>
    var newName: string
    var newSkill: real
    var newPositions: seq<Position>
    var matchResult: Option<MatchResult>

    /** The form always offers at least one position, each at most once. */
    ghost predicate FormValid()
      reads this
    {
      |newPositions| > 0 && NoDuplicates(newPositions)
    }

    /** Every selected id belongs to a roster player. */
    ghost predicate SelectionInRoster()
      reads this
    {
      selected <= RosterIds(players)
    }

    /** The initial state: the stored roster, migrated (or empty if nothing is stored), and a blank form. */
    constructor (saved: Option<seq<StoredPlayer>>)
      ensures players == if saved.Some? then MigrateAll(saved.value) else []
      ensures selected == {} && matchResult == None
      ensures newName == "" && newSkill == DefaultSkill && newPositions == [MID]
      ensures FormValid() && SelectionInRoster()
    {
      players := if saved.Some? then MigrateAll(saved.value) else [];
      selected := {};
      matchResult := None;
      newName := "";
      newSkill := DefaultSkill;
      newPositions := [MID];
    }

    /**
     * Submit the form: with a non-blank name and at least one position,
     * put a new player with `freshId` at the head of the roster and reset
     * the form; otherwise change nothing.
     */
    method AddPlayer(freshId: string)
      modifies this
      ensures IsBlank(old(newName)) || |old(newPositions)| == 0 ==>
        players == old(players) && newName == old(newName) && newSkill == old(newSkill)
        && newPositions == old(newPositions)
      ensures !IsBlank(old(newName)) && |old(newPositions)| > 0 ==>
        players == [Player(freshId, old(newName), old(newSkill), old(newPositions), UnratedSkills)] + old(players)
        && newName == "" && newSkill == DefaultSkill && newPositions == [MID]
      ensures selected == old(selected) && matchResult == old(matchResult)
      ensures old(FormValid()) ==> FormValid()
      ensures old(SelectionInRoster()) ==> SelectionInRoster()
    {
      if IsBlank(newName) { return; }
      if |newPositions| == 0 { return; }
      var newPlayer := Player(freshId, newName, newSkill, newPositions, UnratedSkills);
      players := [newPlayer] + players;
      newName := "";
      newSkill := DefaultSkill;
      newPositions := [MID];
    }

    /** Click a position button in the form. */
    method ToggleNewPosition(pos: Position)
      modifies this`newPositions
      ensures newPositions == TogglePosition(old(newPositions), pos)
      ensures old(FormValid()) ==> FormValid()
    {
      if pos in newPositions {
        if |newPositions| == 1 { return; }
        newPositions := Without(newPositions, pos);
      } else {
        newPositions := newPositions + [pos];
      }
    }

    /** Remove every roster entry with `id` and deselect `id`. */
    method DeletePlayer(id: string)
      modifies this`players, this`selected
      ensures players == WithoutId(old(players), id)
      ensures selected == old(selected) - {id}
      ensures old(SelectionInRoster()) ==> SelectionInRoster()
    {
      if SelectionInRoster() {
        DeleteKeepsSelectionInRoster(players, selected, id);
      }
      players := WithoutId(players, id);
      var next := selected;
      next := next - {id};
      selected := next;
    }

    /** Select `id` if it is not selected, deselect it otherwise. */
    method ToggleSelection(id: string)
      modifies this`selected
      ensures selected == ToggleId(old(selected), id)
      ensures old(SelectionInRoster()) && (id in RosterIds(players) || id in old(selected)) ==> SelectionInRoster()
    {
      var next := selected;
      if id in next {
        next := next - {id};
      } else {
        next := next + {id};
      }
      selected := next;
    }

    /** Clear the selection when it is as large as the roster; otherwise select every roster id. */
    method SelectAll()
      modifies this`selected
      ensures |old(selected)| == |players| ==> selected == {}
      ensures |old(selected)| != |players| ==> selected == RosterIds(players)
      ensures SelectionInRoster()
    {
      if |selected| == |players| {
        selected := {};
      } else {
        selected := RosterIds(players);
      }
    }

    /**
     * Balance the selected players, in roster order, when there are at
     * least two of them; otherwise refuse and keep the previous result.
     */
    method GenerateMatch() returns (generated: bool)
      modifies this`matchResult
      ensures generated <==> |SelectedPlayers(players, selected)| >= 2
      ensures generated ==> matchResult == Some(Balancer.BalancedTeams(SelectedPlayers(players, selected)))
      ensures !generated ==> matchResult == old(matchResult)
    {
      var availablePlayers := SelectedPlayers(players, selected);
      if |availablePlayers| < 2 {
        return false;
      }
      var result := Balancer.GenerateBalancedTeams(availablePlayers);
      matchResult := Some(result);
      generated := true;
    }
  }
}
