/**
 * The admin view: the two game evaluations over the players' typed inputs,
 * and the admin panel's state with the settings record it keeps in storage.
 */
module Admin {
  import opened Wrappers
  import opened JsText
  import opened JsNumber
  import opened Players
  import opened Settings

  /** One parsed entry of a game: the player's id and the integer typed. */
  datatype Bid = Bid(playerId: string, value: int)

  /**
   * `parseInt(player.playerInput?.trim(), 10)`, where an absent or blank
   * input counts as no entry at all.
   */
  function InputNumber(p: Player): (r: Option<int>)
    ensures r.Some? ==> p.playerInput.Some? && !IsBlank(p.playerInput.value)
  {
    match p.playerInput
    case None => None
    case Some(t) =>
      var input := Trim(t);
      if input == "" then None else ParseInt(input)
  }

  /** The token game counts only positive numbers. */
  predicate IsPositive(v: int)
  {
    v > 0
  }

  /** The unique-bid game counts every number, zero and negative ones too. */
  predicate AnyNumber(v: int)
  {
    true
  }

  /**
   * The entries of a game, in roster order: each player whose input `read`s
   * as a number that the game `counts`, with that number.
   */
  function Entries(ps: seq<Player>, read: Player -> Option<int>, counts: int -> bool): (r: seq<Bid>)
    ensures |ps| == 1 ==>
      r == if read(ps[0]).Some? && counts(read(ps[0]).value) then [Bid(ps[0].id, read(ps[0]).value)] else []
  {
    if ps == [] then []
    else
      var p := ps[|ps| - 1];
      var n := read(p);
      Entries(ps[..|ps| - 1], read, counts) + (if n.Some? && counts(n.value) then [Bid(p.id, n.value)] else [])
  }

  /**
   * The entries keep roster order and multiplicity: the entries of a
   * concatenation are the entries of each part, one after the other.
   */
  lemma {:induction false} EntriesConcat(a: seq<Player>, b: seq<Player>, read: Player -> Option<int>, counts: int -> bool)
    ensures Entries(a + b, read, counts) == Entries(a, read, counts) + Entries(b, read, counts)
  {
    if b == [] {
      assert a + b == a;
    } else {
      var n := |b| - 1;
      assert (a + b)[..|a + b| - 1] == a + b[..n];
      assert (a + b)[|a + b| - 1] == b[n];
      EntriesConcat(a, b[..n], read, counts);
    }
  }

  /** The entries are exactly the players with a counted number, each with its number. */
  lemma {:induction false} EntriesMembers(ps: seq<Player>, read: Player -> Option<int>, counts: int -> bool)
    ensures var r := Entries(ps, read, counts);
      |r| <= |ps| &&
      (forall k :: 0 <= k < |r| ==> counts(r[k].value)) &&
      (forall k :: 0 <= k < |r| ==>
        exists i :: 0 <= i < |ps| && ps[i].id == r[k].playerId && read(ps[i]) == Some(r[k].value)) &&
      (forall i :: 0 <= i < |ps| && read(ps[i]).Some? && counts(read(ps[i]).value) ==>
        Bid(ps[i].id, read(ps[i]).value) in r)
  {
    if ps != [] {
      var n := |ps| - 1;
      var init := ps[..n];
      EntriesMembers(init, read, counts);
      var r0 := Entries(init, read, counts);
      var e := if read(ps[n]).Some? && counts(read(ps[n]).value) then [Bid(ps[n].id, read(ps[n]).value)] else [];
      var r := r0 + e;
      assert Entries(ps, read, counts) == r;
      forall k | 0 <= k < |r|
        ensures counts(r[k].value)
        ensures exists i :: 0 <= i < |ps| && ps[i].id == r[k].playerId && read(ps[i]) == Some(r[k].value)
      {
        if k < |r0| {
          assert r[k] == r0[k];
          var i :| 0 <= i < |init| && init[i].id == r0[k].playerId && read(init[i]) == Some(r0[k].value);
          assert ps[i] == init[i];
        } else {
          assert r[k] == e[0];
          assert ps[n].id == r[k].playerId && read(ps[n]) == Some(r[k].value);
        }
      }
      forall i | 0 <= i < |ps| && read(ps[i]).Some? && counts(read(ps[i]).value)
        ensures Bid(ps[i].id, read(ps[i]).value) in r
      {
        if i < n {
          assert init[i] == ps[i];
        }
      }
    }
  }

  /** The token game's weighted entries. */
  function TokenEntries(ps: seq<Player>): seq<Bid>
  {
    Entries(ps, InputNumber, IsPositive)
  }

  /** The unique-bid game's entries. */
  function BidEntries(ps: seq<Player>): seq<Bid>
  {
    Entries(ps, InputNumber, AnyNumber)
  }

  /** The total of the entries' values. */
  function Sum(es: seq<Bid>): int
  {
    if es == [] then 0 else Sum(es[..|es| - 1]) + es[|es| - 1].value
  }

  lemma {:induction false} SumCons(x: Bid, s: seq<Bid>)
    ensures Sum([x] + s) == x.value + Sum(s)
  {
    if s == [] {
      assert [x] + s == [x];
      assert [x][..0] == [];
    } else {
      var t := s[..|s| - 1];
      assert ([x] + s)[..|s|] == [x] + t;
      SumCons(x, t);
    }
  }

  /** The prefix of every entry is the whole list, so its sum is the total. */
  lemma SumWhole(es: seq<Bid>)
    ensures Sum(es[..|es|]) == Sum(es)
  {
    assert es[..|es|] == es;
  }

  /** The sum of the first `k` entries, peeled from the front. */
  lemma SumPrefixCons(es: seq<Bid>, k: nat)
    requires 1 <= k <= |es|
    ensures Sum(es[..k]) == es[0].value + Sum(es[1..][..k - 1])
  {
    assert es[..k] == [es[0]] + es[1..][..k - 1];
    SumCons(es[0], es[1..][..k - 1]);
  }

  lemma {:induction false} SumPositive(es: seq<Bid>)
    requires forall k :: 0 <= k < |es| ==> es[k].value > 0
    ensures es != [] ==> Sum(es) > 0
    ensures Sum(es) >= 0
  {
    if es != [] {
      SumPositive(es[..|es| - 1]);
    }
  }

  /**
   * The weighted draw as a reference definition: walk the entries, and the
   * first whose weight covers what is left of `r` wins.
   */
  function Draw(es: seq<Bid>, r: real): Option<string>
  {
    if es == [] then None
    else if r <= es[0].value as real then Some(es[0].playerId)
    else Draw(es[1..], r - es[0].value as real)
  }

  /** `Math.random() * totalWeight`: a point in [0, total). */
  function DrawPoint(rand: real, total: int): (r: real)
    requires 0.0 <= rand < 1.0
    ensures total > 0 ==> 0.0 <= r < total as real
  {
    assert total > 0 ==> (1.0 - rand) * total as real > 0.0;
    rand * total as real
  }

  /**
   * With positive weights, entry `k` wins exactly when the draw falls in
   * its interval (Sum of the first k, Sum of the first k + 1], an interval
   * as long as its weight.
   */
  lemma {:induction false} DrawInInterval(es: seq<Bid>, r: real, k: nat)
    requires forall i :: 0 <= i < |es| ==> es[i].value > 0
    requires k < |es|
    requires k > 0 ==> Sum(es[..k]) as real < r
    requires r <= Sum(es[..k + 1]) as real
    ensures Draw(es, r) == Some(es[k].playerId)
  {
    SumPrefixCons(es, k + 1);
    if k == 0 {
      assert es[1..][..0] == [];
    } else {
      SumPrefixCons(es, k);
      SumPositive(es[1..][..k - 1]);
      assert es[1..][..k - 1 + 1] == es[1..][..k];
      DrawInInterval(es[1..], r - es[0].value as real, k - 1);
    }
  }

  /**
   * `evaluateTokenGame`: each player whose input is a positive integer gets
   * that many tokens, `rand` (the value of `Math.random()`) picks a point in
   * [0, total), and the first player whose running total reaches it wins.
   * There is a winner exactly when someone has tokens.
   */
  method EvaluateTokenGame(players: seq<Player>, rand: real) returns (winner: Option<string>)
    requires 0.0 <= rand < 1.0
    ensures var es := TokenEntries(players); winner == Draw(es, DrawPoint(rand, Sum(es)))
    ensures winner.None? <==> TokenEntries(players) == []
  {
    var validPlayers := CollectTokenEntries(players);
    EntriesMembers(players, InputNumber, IsPositive);
    winner := DrawByWeight(validPlayers, rand);
  }

  /** The first loop of `evaluateTokenGame`: the players with a positive weight. */
  method CollectTokenEntries(players: seq<Player>) returns (validPlayers: seq<Bid>)
    ensures validPlayers == TokenEntries(players)
  {
    validPlayers := [];
    for i := 0 to |players|
      invariant validPlayers == TokenEntries(players[..i])
    {
      var player := players[i];
      assert players[..i + 1][..i] == players[..i];
      if player.playerInput.Some? {
        var input := Trim(player.playerInput.value);
        if input != "" {
          var weight := ParseInt(input);
          if weight.Some? && weight.value > 0 {
            validPlayers := validPlayers + [Bid(player.id, weight.value)];
          }
        }
      }
    }
    assert players[..|players|] == players;
  }

  /**
   * The rest of `evaluateTokenGame`: scale `rand` to the total weight and
   * walk the running totals until one reaches it.
   */
  method DrawByWeight(validPlayers: seq<Bid>, rand: real) returns (winner: Option<string>)
    requires 0.0 <= rand < 1.0
    requires forall k :: 0 <= k < |validPlayers| ==> validPlayers[k].value > 0
    ensures winner == Draw(validPlayers, DrawPoint(rand, Sum(validPlayers)))
    ensures winner.None? <==> validPlayers == []
  {
    if |validPlayers| == 0 {
      return None;
    }

    var totalWeight := Sum(validPlayers);
    SumPositive(validPlayers);
    if totalWeight == 0 {
      assert false;
      return None;
    }

    var random := DrawPoint(rand, totalWeight);

    var accumulatedWeight := 0;
    for j := 0 to |validPlayers|
      invariant accumulatedWeight == Sum(validPlayers[..j])
      invariant j > 0 ==> (accumulatedWeight as real) < random
      invariant Draw(validPlayers, random) == Draw(validPlayers[j..], random - accumulatedWeight as real)
    {
      var entry := validPlayers[j];
      assert validPlayers[..j + 1][..j] == validPlayers[..j];
      assert validPlayers[j..][0] == entry && validPlayers[j..][1..] == validPlayers[j + 1..];
      ghost var before := accumulatedWeight;
      accumulatedWeight := accumulatedWeight + entry.value;
      if random <= accumulatedWeight as real {
        assert random - before as real <= entry.value as real;
        assert Draw(validPlayers[j..], random - before as real) == Some(entry.playerId);
        return Some(entry.playerId);
      }
    }
    SumWhole(validPlayers);
    assert false;
    return None;
  }

  /** How many entries carry the value `v`. */
  function Count(es: seq<Bid>, v: int): nat
  {
    if es == [] then 0
    else Count(es[..|es| - 1], v) + (if es[|es| - 1].value == v then 1 else 0)
  }

  /** Two different entries with the same value make that value occur at least twice. */
  lemma {:induction false} CountTwoEntries(es: seq<Bid>, i: nat, j: nat)
    requires i < j < |es| && es[i].value == es[j].value
    ensures Count(es, es[i].value) >= 2
  {
    var n := |es| - 1;
    var init := es[..n];
    if j == n {
      CountOneEntry(init, i);
    } else {
      assert init[i] == es[i] && init[j] == es[j];
      CountTwoEntries(init, i, j);
    }
  }

  lemma {:induction false} CountOneEntry(es: seq<Bid>, i: nat)
    requires i < |es|
    ensures Count(es, es[i].value) >= 1
  {
    var n := |es| - 1;
    if i < n {
      assert es[..n][i] == es[i];
      CountOneEntry(es[..n], i);
    }
  }

  /**
   * Entry `i` holds the lowest unique bid: its value occurs once among the
   * entries, and no other value that occurs once is lower.
   */
  predicate IsLowestUnique(es: seq<Bid>, i: int)
  {
    0 <= i < |es| && Count(es, es[i].value) == 1 &&
    forall j :: 0 <= j < |es| && Count(es, es[j].value) == 1 ==> es[i].value <= es[j].value
  }

  /** The lowest unique bid, when there is one, belongs to a single entry. */
  lemma LowestUniqueIsDetermined(es: seq<Bid>, i: int, j: int)
    requires IsLowestUnique(es, i) && IsLowestUnique(es, j)
    ensures i == j
  {
    if i < j {
      CountTwoEntries(es, i, j);
    } else if j < i {
      CountTwoEntries(es, j, i);
    }
  }

  /** `(bidCounts.get(bid) || 0)`: the count recorded for a value, 0 when there is none. */
  function CountOf(counts: map<int, nat>, v: int): nat
  {
    if v in counts then counts[v] else 0
  }

  /** `validBids.filter(({ bid }) => bidCounts.get(bid) === 1)`. */
  function CountedOnce(es: seq<Bid>, counts: map<int, nat>): (r: seq<Bid>)
    ensures forall e :: e in r <==> e in es && CountOf(counts, e.value) == 1
    ensures |es| == 1 ==> r == if CountOf(counts, es[0].value) == 1 then es else []
  {
    if es == [] then []
    else (if CountOf(counts, es[0].value) == 1 then [es[0]] else []) + CountedOnce(es[1..], counts)
  }

  /** The filter keeps order and multiplicity: filtering a concatenation filters each part. */
  lemma {:induction false} CountedOnceConcat(a: seq<Bid>, b: seq<Bid>, counts: map<int, nat>)
    ensures CountedOnce(a + b, counts) == CountedOnce(a, counts) + CountedOnce(b, counts)
  {
    if a == [] {
      assert a + b == b;
    } else {
      assert (a + b)[1..] == a[1..] + b;
      CountedOnceConcat(a[1..], b, counts);
    }
  }

  /** `Math.min(...us.map(({ bid }) => bid))` over a non-empty list. */
  function MinValue(us: seq<Bid>): (m: int)
    requires us != []
    ensures exists i :: 0 <= i < |us| && us[i].value == m
    ensures forall i :: 0 <= i < |us| ==> m <= us[i].value
  {
    if |us| == 1 then us[0].value
    else
      var rest := MinValue(us[1..]);
      if us[0].value <= rest then us[0].value else rest
  }

  /** `us.find(({ bid }) => bid === v)`: the first entry with the value. */
  function FindValue(us: seq<Bid>, v: int): (r: Option<Bid>)
    ensures r.Some? ==> r.value in us && r.value.value == v
    ensures r.Some? ==> exists i :: 0 <= i < |us| && us[i] == r.value && forall j :: 0 <= j < i ==> us[j].value != v
    ensures r.None? ==> forall i :: 0 <= i < |us| ==> us[i].value != v
  {
    if us == [] then None
    else if us[0].value == v then Some(us[0])
    else
      var r := FindValue(us[1..], v);
      if r.Some? then
        ghost var i :| 0 <= i < |us[1..]| && us[1..][i] == r.value && forall j :: 0 <= j < i ==> us[1..][j].value != v;
        assert us[i + 1] == r.value;
        assert forall j :: 0 <= j < i + 1 ==> us[j].value != v by {
          forall j | 0 <= j < i + 1 ensures us[j].value != v {
            if j > 0 { assert us[j] == us[1..][j - 1]; }
          }
        }
        r
      else r
  }

  /**
   * The bidder the unique-bid game designates: the one entry holding the
   * lowest bid nobody else made, none when every bid was repeated.
   */
  ghost function UniqueBidWinner(es: seq<Bid>): (r: Option<string>)
    ensures r.None? <==> forall i :: !IsLowestUnique(es, i)
    ensures r.Some? ==> exists i :: IsLowestUnique(es, i) && es[i].playerId == r.value
  {
    if exists i :: IsLowestUnique(es, i) then
      var i :| IsLowestUnique(es, i);
      Some(es[i].playerId)
    else None
  }

  /** Whichever entry holds the lowest unique bid, its bidder is the designated one. */
  lemma UniqueBidWinnerIs(es: seq<Bid>, i: int)
    requires IsLowestUnique(es, i)
    ensures UniqueBidWinner(es) == Some(es[i].playerId)
  {
    var j :| IsLowestUnique(es, j) && UniqueBidWinner(es) == Some(es[j].playerId);
    LowestUniqueIsDetermined(es, i, j);
  }

  /**
   * `evaluateUniqueBidGame`: among the players whose input reads as an
   * integer, the one whose bid nobody else made and is lowest among such
   * bids wins. There is no winner exactly when every bid was made twice or
   * more (or nobody bid).
   */
  method EvaluateUniqueBidGame(players: seq<Player>) returns (winner: Option<string>)
    ensures var es := BidEntries(players);
      winner.None? <==> forall i :: 0 <= i < |es| ==> Count(es, es[i].value) != 1
    ensures var es := BidEntries(players);
      winner.Some? ==> exists i :: IsLowestUnique(es, i) && es[i].playerId == winner.value
    ensures winner == UniqueBidWinner(BidEntries(players))
  {
    var validBids := CollectBidEntries(players);
    winner := LowestUniqueBidder(validBids);
    if winner.Some? {
      var i :| IsLowestUnique(validBids, i) && validBids[i].playerId == winner.value;
      UniqueBidWinnerIs(validBids, i);
    }
  }

  /** The first loop of `evaluateUniqueBidGame`: the players with an integer bid. */
  method CollectBidEntries(players: seq<Player>) returns (validBids: seq<Bid>)
    ensures validBids == BidEntries(players)
  {
    validBids := [];
    for i := 0 to |players|
      invariant validBids == BidEntries(players[..i])
    {
      var player := players[i];
      assert players[..i + 1][..i] == players[..i];
      if player.playerInput.Some? {
        var input := Trim(player.playerInput.value);
        if input != "" {
          var bid := ParseInt(input);
          if bid.Some? {
            validBids := validBids + [Bid(player.id, bid.value)];
          }
        }
      }
    }
    assert players[..|players|] == players;
  }

  /**
   * The rest of `evaluateUniqueBidGame`: count each bid, keep the bids made
   * once, and return the bidder of the lowest of them.
   */
  method LowestUniqueBidder(validBids: seq<Bid>) returns (winner: Option<string>)
    ensures winner.None? <==> forall i :: 0 <= i < |validBids| ==> Count(validBids, validBids[i].value) != 1
    ensures winner.Some? ==> exists i :: IsLowestUnique(validBids, i) && validBids[i].playerId == winner.value
  {
    if |validBids| == 0 {
      return None;
    }

    var bidCounts: map<int, nat> := map[];
    for j := 0 to |validBids|
      invariant forall v :: CountOf(bidCounts, v) == Count(validBids[..j], v)
    {
      var bid := validBids[j].value;
      assert validBids[..j + 1][..j] == validBids[..j];
      bidCounts := bidCounts[bid := CountOf(bidCounts, bid) + 1];
    }
    assert validBids[..|validBids|] == validBids;

    var uniqueBids := CountedOnce(validBids, bidCounts);
    if |uniqueBids| == 0 {
      forall i | 0 <= i < |validBids| ensures Count(validBids, validBids[i].value) != 1 {
        assert validBids[i] !in uniqueBids;
      }
      return None;
    }

    var lowestUniqueBid := MinValue(uniqueBids);
    var found := FindValue(uniqueBids, lowestUniqueBid);
    winner := if found.Some? then Some(found.value.playerId) else None;

    var b := found.value;
    var i :| 0 <= i < |validBids| && validBids[i] == b;
    forall j | 0 <= j < |validBids| && Count(validBids, validBids[j].value) == 1
      ensures b.value <= validBids[j].value
    {
      assert validBids[j] in uniqueBids;
      var k :| 0 <= k < |uniqueBids| && uniqueBids[k] == validBids[j];
    }
    assert IsLowestUnique(validBids, i);
  }

  /**
   * The admin panel: the roster with its typed inputs, the three settings,
   * and `persisted`, the `admin-settings` entry it keeps in storage.
   */
  class AdminPanel {
    var players: seq<Player>
    var secret: bool
    var winningPlayer: Option<string>
    var selectedImage: Option<string>
    var persisted: Option<StoredSettings>

    function Current(): Settings
      reads this
    {
      Settings(secret, winningPlayer, selectedImage)
    }

    /** The stored entry always reads back as the panel's current settings. */
    ghost predicate Valid()
      reads this
    {
      persisted.Some? && Decode(persisted.value) == Current()
    }

    /**
     * Mounting the panel with the roster loaded elsewhere and the stored
     * settings entry (`None` when missing or unparsable): a parsed entry is
     * adopted as it is, otherwise `{ secret: true }` is written back.
     */
    constructor(roster: seq<Player>, stored: Option<StoredSettings>)
      ensures Valid()
      ensures players == roster
      ensures Current() == Refresh(Initial, stored)
      ensures persisted == if stored.None? then Some(Encode(Initial)) else stored
    {
      players := roster;
      winningPlayer := None;
      selectedImage := None;
      match stored {
        case Some(r) =>
          secret := r.secret.GetOr(true);
          winningPlayer := r.winningPlayer;
          selectedImage := r.selectedImage;
          persisted := stored;
        case None =>
          secret := true;
          persisted := Some(StoredSettings(Some(true), None, None));
      }
    }

    /** A typed input replaces that player's input; the settings stay. */
    method UpdateInput(playerId: string, newInput: string)
      requires Valid()
      modifies this
      ensures Valid()
      ensures players == SetInput(old(players), playerId, newInput)
      ensures Current() == old(Current()) && persisted == old(persisted)
    {
      players := SetInput(players, playerId, newInput);
    }

    /** Flipping the secret flag, and storing all three settings. */
    method ToggleSecret()
      requires Valid()
      modifies this
      ensures Valid()
      ensures Current() == old(Current()).(secret := !old(secret))
      ensures players == old(players) && persisted == Some(Encode(Current()))
    {
      secret := !secret;
      persisted := Some(Encode(Current()));
    }

    /** Choosing an image; the empty path means no image. */
    method ImageChange(imagePath: string)
      requires Valid()
      modifies this
      ensures Valid()
      ensures Current() == old(Current()).(selectedImage := if imagePath == "" then None else Some(imagePath))
      ensures players == old(players) && persisted == Some(Encode(Current()))
    {
      selectedImage := if imagePath == "" then None else Some(imagePath);
      persisted := Some(Encode(Current()));
    }

    /** Recording a game's result: only a non-empty winner id is taken. */
    method RecordWinner(winnerId: Option<string>)
      requires Valid()
      modifies this
      ensures Valid()
      ensures players == old(players) && secret == old(secret) && selectedImage == old(selectedImage)
      ensures winnerId.Some? && winnerId.value != "" ==>
        winningPlayer == winnerId && persisted == Some(Encode(Current()))
      ensures !(winnerId.Some? && winnerId.value != "") ==>
        winningPlayer == old(winningPlayer) && persisted == old(persisted)
    {
      if winnerId.Some? && winnerId.value != "" {
        winningPlayer := winnerId;
        persisted := Some(Encode(Current()));
      }
    }

    /** `handleTokenGame`: runs the token game on the current roster. */
    method TokenGame(rand: real)
      requires Valid() && 0.0 <= rand < 1.0
      modifies this
      ensures Valid()
      ensures players == old(players) && secret == old(secret) && selectedImage == old(selectedImage)
      ensures var es := TokenEntries(old(players)); var w := Draw(es, DrawPoint(rand, Sum(es)));
        winningPlayer == if w.Some? && w.value != "" then w else old(winningPlayer)
      ensures var es := TokenEntries(old(players)); var w := Draw(es, DrawPoint(rand, Sum(es)));
        persisted == if w.Some? && w.value != "" then Some(Encode(Current())) else old(persisted)
    {
      var winnerId := EvaluateTokenGame(players, rand);
      RecordWinner(winnerId);
    }

    /** `handleUniqueBidGame`: runs the unique-bid game on the current roster. */
    method UniqueBidGame()
      requires Valid()
      modifies this
      ensures Valid()
      ensures players == old(players) && secret == old(secret) && selectedImage == old(selectedImage)
      ensures winningPlayer != old(winningPlayer) ==>
        var es := BidEntries(old(players));
        exists i :: IsLowestUnique(es, i) && winningPlayer == Some(es[i].playerId)
      ensures var w := UniqueBidWinner(BidEntries(old(players)));
        winningPlayer == if w.Some? && w.value != "" then w else old(winningPlayer)
      ensures var w := UniqueBidWinner(BidEntries(old(players)));
        persisted == if w.Some? && w.value != "" then Some(Encode(Current())) else old(persisted)
    {
      var winnerId := EvaluateUniqueBidGame(players);
      RecordWinner(winnerId);
    }
  }
}
