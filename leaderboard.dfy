/**
 * The leaderboard: the roster, its display order sorted by money earned,
 * the selection of up to two cards, and the team operations.
 */
module Leaderboard {
  import opened Wrappers
  import opened JsNumber
  import opened Players

  // ---------------------------------------------------------------------
  // Updating a balance
  // ---------------------------------------------------------------------

  /** The player after `handleUpdatePlayer(id, m)`: its balance replaced when the id matches. */
  function WithMoney(p: Player, id: string, m: real): Player
  {
    if p.id == id then p.(moneyEarned := m) else p
  }

  /**
   * `ps.map(p => p.id === id ? { ...p, moneyEarned: m } : p)`: every player
   * with the id gets the new balance; nothing else changes.
   */
  function SetMoney(ps: seq<Player>, id: string, m: real): (r: seq<Player>)
    ensures |r| == |ps|
    ensures forall i :: 0 <= i < |ps| ==> r[i] == WithMoney(ps[i], id, m)
  {
    if ps == [] then [] else [WithMoney(ps[0], id, m)] + SetMoney(ps[1..], id, m)
  }

  lemma {:induction false} SetMoneyConcat(a: seq<Player>, b: seq<Player>, id: string, m: real)
    ensures SetMoney(a + b, id, m) == SetMoney(a, id, m) + SetMoney(b, id, m)
  {
    var l, r := SetMoney(a + b, id, m), SetMoney(a, id, m) + SetMoney(b, id, m);
    assert |l| == |r|;
    forall i | 0 <= i < |l| ensures l[i] == r[i] {
      if i < |a| {
        assert (a + b)[i] == a[i];
      } else {
        assert (a + b)[i] == b[i - |a|];
      }
    }
  }

  /** Taking one player out of a list, then updating, takes its updated copy out. */
  lemma {:induction false} SetMoneyRemove(b: seq<Player>, k: int, id: string, m: real)
    requires 0 <= k < |b|
    ensures multiset(SetMoney(b, id, m)) ==
      multiset(SetMoney(b[..k] + b[k + 1..], id, m)) + multiset{WithMoney(b[k], id, m)}
  {
    assert b == b[..k] + ([b[k]] + b[k + 1..]);
    SetMoneyConcat(b[..k], [b[k]] + b[k + 1..], id, m);
    SetMoneyConcat([b[k]], b[k + 1..], id, m);
    SetMoneyConcat(b[..k], b[k + 1..], id, m);
  }

  /** Taking the same player out of two orderings of one multiset leaves two orderings of one multiset. */
  lemma MultisetRemove(a: seq<Player>, b: seq<Player>, k: int)
    requires multiset(a) == multiset(b) && a != [] && 0 <= k < |b| && b[k] == a[0]
    ensures multiset(a[1..]) == multiset(b[..k] + b[k + 1..])
  {
    var x, rest := a[0], b[..k] + b[k + 1..];
    assert b == b[..k] + [x] + b[k + 1..];
    assert multiset(b) == multiset(rest) + multiset{x};
    assert a == [x] + a[1..];
    assert multiset(a) == multiset(a[1..]) + multiset{x};
    forall y ensures multiset(a[1..])[y] == multiset(rest)[y] {
      assert multiset(a)[y] == multiset(a[1..])[y] + multiset{x}[y];
      assert multiset(b)[y] == multiset(rest)[y] + multiset{x}[y];
    }
  }

  /**
   * Updating two orderings of the same players gives two orderings of the
   * same updated players: the display list stays a permutation of the roster.
   */
  lemma {:induction false} SetMoneyPermutation(a: seq<Player>, b: seq<Player>, id: string, m: real)
    requires multiset(a) == multiset(b)
    ensures multiset(SetMoney(a, id, m)) == multiset(SetMoney(b, id, m))
  {
    if a != [] {
      assert a[0] in multiset(b);
      var k :| 0 <= k < |b| && b[k] == a[0];
      MultisetRemove(a, b, k);
      SetMoneyPermutation(a[1..], b[..k] + b[k + 1..], id, m);
      SetMoneyRemove(b, k, id, m);
      var fa := SetMoney(a, id, m);
      assert fa == [WithMoney(a[0], id, m)] + SetMoney(a[1..], id, m);
    }
  }

  lemma SetMoneyWellFormed(ps: seq<Player>, id: string, m: real)
    requires RosterWellFormed(ps)
    ensures RosterWellFormed(SetMoney(ps, id, m))
  {
  }

  // ---------------------------------------------------------------------
  // Sorting by money
  // ---------------------------------------------------------------------

  /** Non-increasing money earned: the richest first. */
  predicate Sorted(s: seq<Player>)
  {
    forall i, j :: 0 <= i < j < |s| ==> s[i].moneyEarned >= s[j].moneyEarned
  }

  /** The players with exactly `m` earned, in their order in `s`. */
  function Earning(s: seq<Player>, m: real): seq<Player>
  {
    if s == [] then []
    else (if s[0].moneyEarned == m then [s[0]] else []) + Earning(s[1..], m)
  }

  /** Insert `x` before the first player earning no more than it. */
  function Insert(x: Player, t: seq<Player>): (r: seq<Player>)
    ensures |r| == |t| + 1
  {
    if t == [] || x.moneyEarned >= t[0].moneyEarned then [x] + t
    else [t[0]] + Insert(x, t[1..])
  }

  lemma {:induction false} InsertPermutation(x: Player, t: seq<Player>)
    ensures multiset(Insert(x, t)) == multiset(t) + multiset{x}
  {
    if !(t == [] || x.moneyEarned >= t[0].moneyEarned) {
      InsertPermutation(x, t[1..]);
      assert t == [t[0]] + t[1..];
    }
  }

  /** Every player of `Insert(x, t)` is `x` or one of `t` at or after its head. */
  lemma {:induction false} InsertMembers(x: Player, t: seq<Player>, y: Player)
    requires y in Insert(x, t)
    ensures y == x || y in t
  {
    InsertPermutation(x, t);
    assert y in multiset(Insert(x, t));
  }

  lemma {:induction false} InsertSorted(x: Player, t: seq<Player>)
    requires Sorted(t)
    ensures Sorted(Insert(x, t))
  {
    if !(t == [] || x.moneyEarned >= t[0].moneyEarned) {
      var u := Insert(x, t[1..]);
      InsertSorted(x, t[1..]);
      var r := [t[0]] + u;
      forall j | 0 < j < |r| ensures r[0].moneyEarned >= r[j].moneyEarned {
        assert r[j] == u[j - 1];
        InsertMembers(x, t[1..], u[j - 1]);
      }
      forall i, j | 0 <= i < j < |r| ensures r[i].moneyEarned >= r[j].moneyEarned {
        if i > 0 {
          assert r[i] == u[i - 1] && r[j] == u[j - 1];
        }
      }
    }
  }

  lemma {:induction false} InsertEarning(x: Player, t: seq<Player>, m: real)
    requires Sorted(t)
    ensures Earning(Insert(x, t), m) == (if x.moneyEarned == m then [x] else []) + Earning(t, m)
  {
    if t == [] || x.moneyEarned >= t[0].moneyEarned {
      assert ([x] + t)[1..] == t;
    } else {
      InsertEarning(x, t[1..], m);
      var r := [t[0]] + Insert(x, t[1..]);
      assert r[1..] == Insert(x, t[1..]);
    }
  }

  /**
   * `[...s].sort((a, b) => b.moneyEarned - a.moneyEarned)`. `Array.prototype.sort`
   * is stable, so the result is sorted richest first, holds the same players,
   * and keeps the original order among players earning the same amount.
   */
  function SortByMoney(s: seq<Player>): (r: seq<Player>)
    ensures Sorted(r)
    ensures multiset(r) == multiset(s)
    ensures |r| == |s|
  {
    if s == [] then []
    else
      var rest := SortByMoney(s[1..]);
      InsertSorted(s[0], rest);
      InsertPermutation(s[0], rest);
      assert s == [s[0]] + s[1..];
      Insert(s[0], rest)
  }

  /** The sort is stable: for every amount, the players earning it keep their order. */
  lemma {:induction false} SortByMoneyStable(s: seq<Player>, m: real)
    ensures Earning(SortByMoney(s), m) == Earning(s, m)
  {
    if s != [] {
      SortByMoneyStable(s[1..], m);
      InsertEarning(s[0], SortByMoney(s[1..]), m);
    }
  }

  /** Sorting an already sorted list changes nothing, so re-sorting twice is re-sorting once. */
  lemma {:induction false} SortSortedIsIdentity(s: seq<Player>)
    requires Sorted(s)
    ensures SortByMoney(s) == s
  {
    if s != [] {
      SortSortedIsIdentity(s[1..]);
      assert s == [s[0]] + s[1..];
    }
  }

  /**
   * `sortedPlayers.map((p, index) => ({ ...p, rank: index + 1 }))`: each
   * card is numbered with its 1-based position in the display list.
   */
  function WithRanks(s: seq<Player>): (r: seq<Player>)
    ensures |r| == |s|
    ensures forall i :: 0 <= i < |s| ==> r[i].rank == Some(i + 1) && r[i].(rank := s[i].rank) == s[i]
  {
    seq(|s|, i requires 0 <= i < |s| => s[i].(rank := Some(i + 1)))
  }

  /**
   * After a re-sort, the ranks follow the money: a better rank never
   * earns less.
   */
  lemma RanksFollowMoney(s: seq<Player>)
    ensures var r := WithRanks(SortByMoney(s));
      forall i, j :: 0 <= i < j < |r| ==> r[i].rank.value < r[j].rank.value && r[i].moneyEarned >= r[j].moneyEarned
  {
    var t := SortByMoney(s);
    var r := WithRanks(t);
    forall i, j | 0 <= i < j < |r| ensures r[i].moneyEarned >= r[j].moneyEarned {
      assert r[i].(rank := t[i].rank) == t[i];
      assert r[j].(rank := t[j].rank) == t[j];
    }
  }

  // ---------------------------------------------------------------------
  // Selection
  // ---------------------------------------------------------------------

  predicate NoDuplicates(ids: seq<string>)
  {
    forall i, j :: 0 <= i < j < |ids| ==> ids[i] != ids[j]
  }

  /** `ids.filter(x => x !== id)`. */
  function RemoveId(ids: seq<string>, id: string): (r: seq<string>)
    ensures forall x :: x in r <==> x in ids && x != id
    ensures |r| <= |ids|
    ensures NoDuplicates(ids) ==> NoDuplicates(r)
    ensures |ids| == 1 ==> r == if ids[0] == id then [] else ids
  {
    if ids == [] then []
    else
      var rest := RemoveId(ids[1..], id);
      assert NoDuplicates(ids) ==> ids[0] !in ids[1..];
      if ids[0] == id then rest else [ids[0]] + rest
  }

  /** The filter keeps the order: filtering a concatenation filters each part. */
  lemma {:induction false} RemoveIdConcat(a: seq<string>, b: seq<string>, id: string)
    ensures RemoveId(a + b, id) == RemoveId(a, id) + RemoveId(b, id)
  {
    if a == [] {
      assert a + b == b;
    } else {
      assert (a + b)[1..] == a[1..] + b;
      RemoveIdConcat(a[1..], b, id);
    }
  }

  /**
   * `handleSelectPlayer`: a selected card is deselected; an unselected one
   * is selected only while fewer than two are. At most two distinct ids are
   * ever selected, and no other card's selection changes.
   */
  function Toggle(ids: seq<string>, id: string): (r: seq<string>)
    ensures |ids| <= 2 ==> |r| <= 2
    ensures NoDuplicates(ids) ==> NoDuplicates(r)
    ensures id in r <==> id !in ids && |ids| < 2
    ensures forall x :: x != id ==> (x in r <==> x in ids)
    ensures id in ids ==> r == RemoveId(ids, id)
    ensures id !in ids && |ids| < 2 ==> r == ids + [id]
    ensures id !in ids && |ids| >= 2 ==> r == ids
  {
    if id in ids then RemoveId(ids, id)
    else if |ids| < 2 then ids + [id]
    else ids
  }

  /** Selecting a card twice in a row, when it could be selected, restores the selection. */
  lemma ToggleTwice(ids: seq<string>, id: string)
    requires id !in ids && |ids| < 2
    ensures Toggle(Toggle(ids, id), id) == ids
  {
    var t := ids + [id];
    assert RemoveId([id], id) == [];
    if |ids| == 1 {
      assert t == [ids[0]] + [id] && t[1..] == [id];
    } else {
      assert t == [id];
    }
  }

  // ---------------------------------------------------------------------
  // Teams
  // ---------------------------------------------------------------------

  /** `ps.find(p => p.id === id)`: the first player with the id. */
  function Find(ps: seq<Player>, id: string): (r: Option<Player>)
    ensures r.Some? ==> r.value in ps && r.value.id == id
    ensures r.Some? ==> exists i :: 0 <= i < |ps| && ps[i] == r.value && forall j :: 0 <= j < i ==> ps[j].id != id
    ensures r.None? <==> forall i :: 0 <= i < |ps| ==> ps[i].id != id
    ensures RosterWellFormed(ps) && r.Some? ==> WellFormed(r.value)
  {
    if ps == [] then None
    else if ps[0].id == id then Some(ps[0])
    else
      var r := Find(ps[1..], id);
      if r.Some? then
        ghost var i :| 0 <= i < |ps[1..]| && ps[1..][i] == r.value && forall j :: 0 <= j < i ==> ps[1..][j].id != id;
        assert ps[i + 1] == r.value;
        assert forall j :: 0 <= j < i + 1 ==> ps[j].id != id by {
          forall j | 0 <= j < i + 1 ensures ps[j].id != id {
            if j > 0 { assert ps[j] == ps[1..][j - 1]; }
          }
        }
        r
      else r
  }

  /** `ps.filter(p => !ids.has(p.id))`: the players whose id is not listed. */
  function Drop(ps: seq<Player>, ids: set<string>): (r: seq<Player>)
    ensures forall p :: p in r <==> p in ps && p.id !in ids
    ensures RosterWellFormed(ps) ==> RosterWellFormed(r)
    ensures |ps| == 1 ==> r == if ps[0].id in ids then [] else ps
  {
    if ps == [] then []
    else (if ps[0].id in ids then [] else [ps[0]]) + Drop(ps[1..], ids)
  }

  /** The filter keeps the order: filtering a concatenation filters each part. */
  lemma {:induction false} DropConcat(a: seq<Player>, b: seq<Player>, ids: set<string>)
    ensures Drop(a + b, ids) == Drop(a, ids) + Drop(b, ids)
  {
    if a == [] {
      assert a + b == b;
    } else {
      assert (a + b)[1..] == a[1..] + b;
      DropConcat(a[1..], b, ids);
    }
  }

  /** How many players carry the id. */
  function CountId(ps: seq<Player>, id: string): nat
  {
    if ps == [] then 0 else (if ps[0].id == id then 1 else 0) + CountId(ps[1..], id)
  }

  /** The money of all players together. */
  function TotalMoney(ps: seq<Player>): real
  {
    if ps == [] then 0.0 else ps[0].moneyEarned + TotalMoney(ps[1..])
  }

  /** The money of the players carrying the id. */
  function MoneyWithId(ps: seq<Player>, id: string): real
  {
    if ps == [] then 0.0 else (if ps[0].id == id then ps[0].moneyEarned else 0.0) + MoneyWithId(ps[1..], id)
  }

  lemma {:induction false} TotalMoneyConcat(a: seq<Player>, b: seq<Player>)
    ensures TotalMoney(a + b) == TotalMoney(a) + TotalMoney(b)
  {
    if a == [] {
      assert a + b == b;
    } else {
      assert (a + b)[1..] == a[1..] + b;
      TotalMoneyConcat(a[1..], b);
    }
  }

  /** Dropping one id removes exactly that id's players and money. */
  lemma {:induction false} DropOne(ps: seq<Player>, a: string)
    ensures |Drop(ps, {a})| == |ps| - CountId(ps, a)
    ensures TotalMoney(Drop(ps, {a})) == TotalMoney(ps) - MoneyWithId(ps, a)
  {
    if ps != [] {
      DropOne(ps[1..], a);
      var head := if ps[0].id == a then [] else [ps[0]];
      assert Drop(ps, {a}) == head + Drop(ps[1..], {a});
      TotalMoneyConcat(head, Drop(ps[1..], {a}));
    }
  }

  /** Dropping two different ids removes exactly their players and money. */
  lemma {:induction false} DropTwo(ps: seq<Player>, a: string, b: string)
    requires a != b
    ensures |Drop(ps, {a, b})| == |ps| - CountId(ps, a) - CountId(ps, b)
    ensures TotalMoney(Drop(ps, {a, b})) == TotalMoney(ps) - MoneyWithId(ps, a) - MoneyWithId(ps, b)
  {
    if ps != [] {
      DropTwo(ps[1..], a, b);
      var head := if ps[0].id in {a, b} then [] else [ps[0]];
      assert Drop(ps, {a, b}) == head + Drop(ps[1..], {a, b});
      TotalMoneyConcat(head, Drop(ps[1..], {a, b}));
    }
  }

  /** An id carried once contributes exactly the balance of the player `find` returns. */
  lemma {:induction false} UniqueMoney(ps: seq<Player>, id: string)
    requires CountId(ps, id) == 1
    ensures Find(ps, id).Some? && MoneyWithId(ps, id) == Find(ps, id).value.moneyEarned
  {
    if ps[0].id == id {
      NoOtherMoney(ps[1..], id);
    } else {
      UniqueMoney(ps[1..], id);
    }
  }

  lemma {:induction false} NoOtherMoney(ps: seq<Player>, id: string)
    requires CountId(ps, id) == 0
    ensures MoneyWithId(ps, id) == 0.0
  {
    if ps != [] {
      NoOtherMoney(ps[1..], id);
    }
  }

  /**
   * `teamExists`: some team whose first two names are the first names of
   * the two players, in either order. A team with fewer than two names
   * never matches (its missing name is `undefined`).
   */
  predicate TeamExists(ps: seq<Player>, p1: Player, p2: Player)
    requires |p1.names| >= 1 && |p2.names| >= 1
  {
    exists i :: 0 <= i < |ps| && ps[i].kind == Team && |ps[i].names| >= 2 &&
      ((ps[i].names[0] == p1.names[0] && ps[i].names[1] == p2.names[0]) ||
       (ps[i].names[0] == p2.names[0] && ps[i].names[1] == p1.names[0]))
  }

  /** The duplicate check does not depend on the order of the two players. */
  lemma TeamExistsEitherOrder(ps: seq<Player>, p1: Player, p2: Player)
    requires |p1.names| >= 1 && |p2.names| >= 1
    ensures TeamExists(ps, p1, p2) <==> TeamExists(ps, p2, p1)
  {
  }

  /**
   * Once two players are merged, the same two first names (in either
   * order) are rejected as a duplicate team on the merged roster.
   */
  lemma MergedTeamBlocksRepeat(rest: seq<Player>, p1: Player, p2: Player, q1: Player, q2: Player)
    requires |p1.names| >= 1 && |p2.names| >= 1 && |q1.names| >= 1 && |q2.names| >= 1
    requires (q1.names[0] == p1.names[0] && q2.names[0] == p2.names[0]) ||
             (q1.names[0] == p2.names[0] && q2.names[0] == p1.names[0])
    ensures TeamExists(rest + [NewTeam(p1, p2)], q1, q2)
  {
    var u := rest + [NewTeam(p1, p2)];
    assert u[|u| - 1] == NewTeam(p1, p2);
  }

  /** `a || b || undefined` on optional URLs: the empty URL counts as missing. */
  function OrAvatar(a: Option<string>, b: Option<string>): (r: Option<string>)
    ensures r.Some? ==> r.value != "" && (r == a || r == b)
    ensures a.Some? && a.value != "" ==> r == a
    ensures r.None? <==> (a.None? || a.value == "") && (b.None? || b.value == "")
  {
    if a.Some? && a.value != "" then a
    else if b.Some? && b.value != "" then b
    else None
  }

  /**
   * The merged team: id `team-<id1>-<id2>`, the first name of each, the sum
   * of their money, and the first non-empty avatar as the team's picture.
   */
  function NewTeam(p1: Player, p2: Player): (t: Player)
    requires |p1.names| >= 1 && |p2.names| >= 1
    ensures t.kind == Team && t.names == [p1.names[0], p2.names[0]] && WellFormed(t)
    ensures t.moneyEarned == p1.moneyEarned + p2.moneyEarned
    ensures t.id == "team-" + p1.id + "-" + p2.id
    ensures t.teamAvatarUrl == OrAvatar(p1.avatarUrl, p2.avatarUrl)
    ensures t.avatarUrl.None? && t.rank.None? && t.playerInput.None?
  {
    Player("team-" + p1.id + "-" + p2.id, Team, [p1.names[0], p2.names[0]],
      p1.moneyEarned + p2.moneyEarned, None, None, OrAvatar(p1.avatarUrl, p2.avatarUrl), None)
  }

  datatype MakeTeamOutcome =
    | NoChange                        // not two selected, or one of them is not in the roster
    | DuplicateTeam                   // alerted: such a team exists already
    | Merged(players: seq<Player>)    // the roster without the two, plus the new team

  /**
   * The merge of two found players: rejected when a team with their first
   * names exists, otherwise the roster without both of them followed by the
   * new team.
   */
  function MergePair(ps: seq<Player>, p1: Player, p2: Player): (o: MakeTeamOutcome)
    requires RosterWellFormed(ps) && |p1.names| >= 1 && |p2.names| >= 1
    ensures o != NoChange
    ensures o == DuplicateTeam <==> TeamExists(ps, p1, p2)
    ensures o.Merged? ==> o.players == Drop(ps, {p1.id, p2.id}) + [NewTeam(p1, p2)]
    ensures o.Merged? ==> RosterWellFormed(o.players)
  {
    if TeamExists(ps, p1, p2) then DuplicateTeam
    else Merged(Drop(ps, {p1.id, p2.id}) + [NewTeam(p1, p2)])
  }

  /** `handleMakeTeam` on the roster and the selection. */
  function MakeTeamResult(ps: seq<Player>, selected: seq<string>): (o: MakeTeamOutcome)
    requires RosterWellFormed(ps)
    ensures o.Merged? ==> |selected| == 2 && |o.players| >= 1 && RosterWellFormed(o.players)
    ensures o.Merged? ==> forall p :: p in o.players[..|o.players| - 1] <==> p in ps && p.id != selected[0] && p.id != selected[1]
    ensures o.Merged? ==> o.players[|o.players| - 1].kind == Team
    ensures o != NoChange <==>
      |selected| == 2 && Find(ps, selected[0]).Some? && Find(ps, selected[1]).Some?
    ensures o == DuplicateTeam <==>
      |selected| == 2 && Find(ps, selected[0]).Some? && Find(ps, selected[1]).Some? &&
      TeamExists(ps, Find(ps, selected[0]).value, Find(ps, selected[1]).value)
    ensures o.Merged? ==>
      o.players == Drop(ps, {selected[0], selected[1]}) + [NewTeam(Find(ps, selected[0]).value, Find(ps, selected[1]).value)]
  {
    if |selected| != 2 then NoChange
    else
      var id1, id2 := selected[0], selected[1];
      match (Find(ps, id1), Find(ps, id2))
      case (Some(p1), Some(p2)) =>
        var o := MergePair(ps, p1, p2);
        if o.Merged? then
          MergedShape(ps, p1, p2, o.players);
          o
        else o
      case _ => NoChange
  }

  /** The merged roster: everyone but the two, then a team. */
  lemma MergedShape(ps: seq<Player>, p1: Player, p2: Player, u: seq<Player>)
    requires |p1.names| >= 1 && |p2.names| >= 1
    requires u == Drop(ps, {p1.id, p2.id}) + [NewTeam(p1, p2)]
    ensures |u| >= 1 && u[|u| - 1].kind == Team
    ensures forall p :: p in u[..|u| - 1] <==> p in ps && p.id != p1.id && p.id != p2.id
  {
    assert u[..|u| - 1] == Drop(ps, {p1.id, p2.id});
  }

  /**
   * Merging two players who each appear once keeps the total money and
   * shortens the roster by one.
   */
  lemma MakeTeamKeepsMoney(ps: seq<Player>, selected: seq<string>)
    requires RosterWellFormed(ps)
    requires |selected| == 2 && selected[0] != selected[1]
    requires CountId(ps, selected[0]) == 1 && CountId(ps, selected[1]) == 1
    ensures MakeTeamResult(ps, selected).Merged? ==>
      TotalMoney(MakeTeamResult(ps, selected).players) == TotalMoney(ps) &&
      |MakeTeamResult(ps, selected).players| == |ps| - 1
  {
    var id1, id2 := selected[0], selected[1];
    UniqueMoney(ps, id1);
    UniqueMoney(ps, id2);
    var p1, p2 := Find(ps, id1).value, Find(ps, id2).value;
    assert WellFormed(p1) && WellFormed(p2);
    if MakeTeamResult(ps, selected).Merged? {
      var rest := Drop(ps, {id1, id2});
      DropTwo(ps, id1, id2);
      TotalMoneyConcat(rest, [NewTeam(p1, p2)]);
      assert MakeTeamResult(ps, selected).players == rest + [NewTeam(p1, p2)];
    }
  }

  /**
   * The two singles a team splits into: one per name, each with half of the
   * team's money and the team's picture as avatar, with ids
   * `<team id>-1-<now1>` and `<team id>-2-<now2>`, the numbers being the
   * clock readings.
   */
  function SplitTeam(t: Player, now1: nat, now2: nat): (pair: seq<Player>)
    requires t.kind == Team && WellFormed(t)
    ensures |pair| == 2 && RosterWellFormed(pair)
    ensures pair[0].kind == pair[1].kind == Single
    ensures pair[0].names == [t.names[0]] && pair[1].names == [t.names[1]]
    ensures pair[0].moneyEarned == pair[1].moneyEarned == t.moneyEarned / 2.0
    ensures pair[0].id == t.id + "-1-" + DecimalText(now1)
    ensures pair[1].id == t.id + "-2-" + DecimalText(now2)
    ensures pair[0].avatarUrl == pair[1].avatarUrl == t.teamAvatarUrl
    ensures pair[0].rank.None? && pair[0].teamAvatarUrl.None? && pair[0].playerInput.None?
    ensures pair[1].rank.None? && pair[1].teamAvatarUrl.None? && pair[1].playerInput.None?
    ensures TotalMoney(pair) == t.moneyEarned
  {
    var splitMoney := t.moneyEarned / 2.0;
    var pair :=
      [Player(t.id + "-1-" + DecimalText(now1), Single, [t.names[0]], splitMoney, None, t.teamAvatarUrl, None, None),
       Player(t.id + "-2-" + DecimalText(now2), Single, [t.names[1]], splitMoney, None, t.teamAvatarUrl, None, None)];
    assert pair[1..][1..] == [];
    assert TotalMoney(pair[1..]) == splitMoney;
    pair
  }

  /**
   * `handleBreakTeam` on the roster and the selection: a single selected
   * team is replaced, at the end of the roster, by the two singles it splits
   * into; any other selection leaves the roster as it is.
   */
  function BreakTeamResult(ps: seq<Player>, selected: seq<string>, now1: nat, now2: nat): (r: Option<seq<Player>>)
    requires RosterWellFormed(ps)
    ensures r.Some? <==> |selected| == 1 && Find(ps, selected[0]).Some? && Find(ps, selected[0]).value.kind == Team
    ensures r.Some? ==> RosterWellFormed(r.value)
    ensures r.Some? ==> r.value == Drop(ps, {selected[0]}) + SplitTeam(Find(ps, selected[0]).value, now1, now2)
  {
    if |selected| != 1 then None
    else
      match Find(ps, selected[0])
      case None => None
      case Some(t) =>
        if t.kind != Team then None
        else
          assert WellFormed(t);
          Some(Drop(ps, {t.id}) + SplitTeam(t, now1, now2))
  }

  /** Breaking a team that appears once keeps the total money and adds one entry. */
  lemma BreakTeamKeepsMoney(ps: seq<Player>, selected: seq<string>, now1: nat, now2: nat)
    requires RosterWellFormed(ps)
    requires |selected| == 1 && CountId(ps, selected[0]) == 1
    ensures BreakTeamResult(ps, selected, now1, now2).Some? ==>
      TotalMoney(BreakTeamResult(ps, selected, now1, now2).value) == TotalMoney(ps) &&
      |BreakTeamResult(ps, selected, now1, now2).value| == |ps| + 1
  {
    var r := BreakTeamResult(ps, selected, now1, now2);
    if r.Some? {
      var t := Find(ps, selected[0]).value;
      UniqueMoney(ps, selected[0]);
      DropOne(ps, t.id);
      TotalMoneyConcat(Drop(ps, {t.id}), SplitTeam(t, now1, now2));
    }
  }

  // ---------------------------------------------------------------------
  // The component's state
  // ---------------------------------------------------------------------

  class Leaderboard {
    var players: seq<Player>
    var sortedPlayers: seq<Player>
    var selectedPlayerIds: seq<string>

    /**
     * The roster is well formed, the display list holds the same players,
     * and at most two distinct cards are selected.
     */
    ghost predicate Valid()
      reads this
    {
      RosterWellFormed(players) && multiset(sortedPlayers) == multiset(players) &&
      |selectedPlayerIds| <= 2 && NoDuplicates(selectedPlayerIds)
    }

    /** The initial state: the given roster, displayed sorted, nothing selected. */
    constructor(initialPlayers: seq<Player>)
      requires RosterWellFormed(initialPlayers)
      ensures Valid()
      ensures players == initialPlayers && sortedPlayers == SortByMoney(initialPlayers)
      ensures selectedPlayerIds == []
    {
      players := initialPlayers;
      sortedPlayers := SortByMoney(initialPlayers);
      selectedPlayerIds := [];
    }

    /** `handleUpdatePlayer`: the balance changes in both lists, without re-sorting. */
    method UpdatePlayer(playerId: string, newMoneyEarned: real)
      requires Valid()
      modifies this
      ensures Valid()
      ensures players == SetMoney(old(players), playerId, newMoneyEarned)
      ensures sortedPlayers == SetMoney(old(sortedPlayers), playerId, newMoneyEarned)
      ensures selectedPlayerIds == old(selectedPlayerIds)
    {
      SetMoneyPermutation(sortedPlayers, players, playerId, newMoneyEarned);
      SetMoneyWellFormed(players, playerId, newMoneyEarned);
      players := SetMoney(players, playerId, newMoneyEarned);
      sortedPlayers := SetMoney(sortedPlayers, playerId, newMoneyEarned);
    }

    /** `handleResort`: the display list is sorted again, stably. */
    method Resort()
      requires Valid()
      modifies this
      ensures Valid()
      ensures sortedPlayers == SortByMoney(old(sortedPlayers))
      ensures players == old(players) && selectedPlayerIds == old(selectedPlayerIds)
    {
      sortedPlayers := SortByMoney(sortedPlayers);
    }

    /** `handleSelectPlayer`. */
    method SelectPlayer(playerId: string)
      requires Valid()
      modifies this
      ensures Valid()
      ensures selectedPlayerIds == Toggle(old(selectedPlayerIds), playerId)
      ensures players == old(players) && sortedPlayers == old(sortedPlayers)
    {
      selectedPlayerIds := Toggle(selectedPlayerIds, playerId);
    }

    /**
     * `handleMakeTeam`: `alerted` when the team exists already; on a merge
     * the roster is replaced, re-sorted for display, and the selection cleared.
     */
    method MakeTeam() returns (alerted: bool)
      requires Valid()
      modifies this
      ensures Valid()
      ensures var o := MakeTeamResult(old(players), old(selectedPlayerIds));
        alerted == (o == DuplicateTeam) &&
        (o.Merged? ==> players == o.players && sortedPlayers == SortByMoney(o.players) && selectedPlayerIds == []) &&
        (!o.Merged? ==> players == old(players) && sortedPlayers == old(sortedPlayers) &&
                        selectedPlayerIds == old(selectedPlayerIds))
    {
      var outcome := MakeTeamResult(players, selectedPlayerIds);
      alerted := outcome == DuplicateTeam;
      if outcome.Merged? {
        ReplaceRoster(outcome.players);
      }
    }

    /**
     * `handleBreakTeam`, with `now1` and `now2` the two readings of
     * `Date.now()`: on a split the roster is replaced, re-sorted for
     * display, and the selection cleared.
     */
    method BreakTeam(now1: nat, now2: nat)
      requires Valid()
      modifies this
      ensures Valid()
      ensures var r := BreakTeamResult(old(players), old(selectedPlayerIds), now1, now2);
        (r.Some? ==> players == r.value && sortedPlayers == SortByMoney(r.value) && selectedPlayerIds == []) &&
        (r.None? ==> players == old(players) && sortedPlayers == old(sortedPlayers) &&
                     selectedPlayerIds == old(selectedPlayerIds))
    {
      var r := BreakTeamResult(players, selectedPlayerIds, now1, now2);
      if r.Some? {
        ReplaceRoster(r.value);
      }
    }

    /**
     * The common end of a merge and a split: the new roster is stored, the
     * display list is the new roster sorted, and the selection is cleared.
     */
    method ReplaceRoster(newPlayers: seq<Player>)
      requires RosterWellFormed(newPlayers)
      modifies this
      ensures Valid()
      ensures players == newPlayers && sortedPlayers == SortByMoney(newPlayers) && selectedPlayerIds == []
    {
      players := newPlayers;
      sortedPlayers := SortByMoney(newPlayers);
      selectedPlayerIds := [];
    }

    /** `playersWithRank`: the display list numbered from 1. */
    function PlayersWithRank(): (r: seq<Player>)
      reads this
      ensures |r| == |sortedPlayers|
      ensures forall i :: 0 <= i < |r| ==> r[i] == sortedPlayers[i].(rank := Some(i + 1))
    {
      WithRanks(sortedPlayers)
    }
  }
}
