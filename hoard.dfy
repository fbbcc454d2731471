/**
  HOARD: a console idle game. A player accumulates units at a rate per
  second, invests units to raise the rate, buys upgrades, and is ranked on
  a shared leaderboard.

  Doubles are modelled as reals. The clock, the random roll, the menu
  choice, the typed names and amounts, the save file's contents and the
  downloaded leaderboard are inputs of the members; networking, file
  parsing, console output and the background thread are not modelled.
 */
module Hoard {
  import opened RealMath

  datatype Option<T> = None | Some(value: T)

  /** Cost and effect of the two upgrades of the unlock menu. */
  const IDLE_UPGRADE_COST: real := 5000.0
  const IDLE_UPGRADE_STEP: real := 0.05
  const LUCK_UPGRADE_COST: real := 8000.0
  const LUCK_UPGRADE_STEP: real := 0.0005
  /** The chance of a doubled investment never counts for more than this. */
  const LUCK_CAP: real := 0.05
  /** The leaderboard lists at most this many players. */
  const TOP: nat := 10

  /** The fields of the program's player record. */
  datatype Account = Account(name: string, units: real, rate: real, lastSaved: int,
                             idleBonus: real, doubleInvestChance: real)

  /** A player before any save has been loaded. */
  const NEW_ACCOUNT: Account := Account("", 0.0, 1.0, 0, 0.0, 0.0)

  /** What the save file holds: the record, with the time of saving. */
  datatype SaveRecord = SaveRecord(name: string, units: real, rate: real, savedAt: int,
                                   idleBonus: real, doubleInvestChance: real)

  // ---------------------------------------------------------------------
  // Gain formulas
  // ---------------------------------------------------------------------

  /** The share of the rate earned while the program was closed. */
  function Efficiency(idleBonus: real): (e: real)
    ensures idleBonus >= 0.0 ==> 0.10 <= e <= 1.10
    ensures e <= 1.10
  {
    0.10 + Min(idleBonus, 1.0)
  }

  /** Units earned offline over `elapsed` seconds: nothing when no time
      passed or the rate is zero. */
  function OfflineGain(rate: real, elapsed: int, idleBonus: real): (g: real)
    ensures elapsed == 0 || rate == 0.0 ==> g == 0.0
  {
    rate * (elapsed as real) * Efficiency(idleBonus)
  }

  /** With a non-negative rate, time and bonus, the offline gain lies
      between a tenth of and 1.1 times the full-rate earnings. */
  lemma OfflineGainBounds(rate: real, elapsed: int, idleBonus: real)
    requires rate >= 0.0 && elapsed >= 0 && idleBonus >= 0.0
    ensures 0.10 * (rate * elapsed as real) <= OfflineGain(rate, elapsed, idleBonus)
    ensures OfflineGain(rate, elapsed, idleBonus) <= 1.10 * (rate * elapsed as real)
  {
    var full := rate * elapsed as real;
    var e := Efficiency(idleBonus);
    var g := OfflineGain(rate, elapsed, idleBonus);
    assert full >= 0.0 by { NonNegativeProduct(rate, elapsed as real); }
    assert g == full * e;
    Between(full, e, g);
  }

  /** A non-negative amount times a factor in [0.10, 1.10]. */
  lemma Between(full: real, e: real, g: real)
    requires full >= 0.0 && 0.10 <= e <= 1.10 && g == full * e
    ensures 0.10 * full <= g <= 1.10 * full
  {
    MonotoneProduct(full, 0.10, e);
    MonotoneProduct(full, e, 1.10);
  }

  lemma NonNegativeProduct(u: real, v: real)
    requires u >= 0.0 && v >= 0.0
    ensures u * v >= 0.0
  {
  }

  lemma MonotoneProduct(c: real, x: real, y: real)
    requires c >= 0.0 && x <= y
    ensures c * x <= c * y
  {
    NonNegativeProduct(c, y - x);
    assert c * y - c * x == c * (y - x);
  }

  /** The factor one idle second applies to the rate. */
  function TickMultiplier(idleBonus: real): (m: real)
    ensures idleBonus >= 0.0 ==> 1.0 <= m <= 2.0
    ensures m <= 2.0
  {
    1.0 + Min(idleBonus, 1.0)
  }

  /** The rate increase bought by investing `amount`, doubled when the roll
      falls below the capped chance. Undefined at amount = -1000, where the
      program divides by zero. */
  function RateIncrease(amount: real, roll: real, chance: real): (r: real)
    requires amount != -1000.0
    ensures amount >= 0.0 ==> r >= 0.0
    ensures BaseIncrease(amount) != 0.0 ==>
              (r == 2.0 * BaseIncrease(amount) <==> roll < Min(chance, LUCK_CAP))
  {
    var inc := BaseIncrease(amount);
    if roll < Min(chance, LUCK_CAP) then inc * 2.0 else inc
  }

  /** A thousandth of amount^2 / (amount + 1000). */
  function BaseIncrease(amount: real): (g: real)
    requires amount != -1000.0
    ensures amount >= 0.0 ==> g >= 0.0
  {
    (amount * amount) / (amount + 1000.0) * 0.001
  }

  // ---------------------------------------------------------------------
  // State transitions on the record
  // ---------------------------------------------------------------------

  /** `invest` as the program has it: only a shortfall is refused. */
  function Invested(p: Account, amount: real, roll: real): (q: Account)
    requires amount != -1000.0
    ensures p.units < amount ==> q == p
    ensures p.units >= amount ==>
      q == p.(units := p.units - amount,
               rate := p.rate + RateIncrease(amount, roll, p.doubleInvestChance))
  {
    if p.units < amount then p
    else p.(units := p.units - amount,
            rate := p.rate + RateIncrease(amount, roll, p.doubleInvestChance))
  }

  /** `invest` with the evidently intended guard: only positive amounts
      that the player can afford are accepted. */
  function InvestedChecked(p: Account, amount: real, roll: real): (q: Account)
    ensures amount <= 0.0 || p.units < amount ==> q == p
    ensures amount > 0.0 && p.units >= amount ==> q == Invested(p, amount, roll)
  {
    if amount <= 0.0 || p.units < amount then p else Invested(p, amount, roll)
  }

  /** The unlock menu: 1 buys idle bonus, 2 buys investment luck, each only
      below its cap and when affordable; anything else changes nothing. */
  function Unlocked(p: Account, choice: int): (q: Account)
    ensures q.name == p.name && q.rate == p.rate && q.lastSaved == p.lastSaved
  {
    if choice == 1 && p.idleBonus < 1.0 && p.units >= IDLE_UPGRADE_COST then
      p.(units := p.units - IDLE_UPGRADE_COST, idleBonus := p.idleBonus + IDLE_UPGRADE_STEP)
    else if choice == 2 && p.doubleInvestChance < LUCK_CAP && p.units >= LUCK_UPGRADE_COST then
      p.(units := p.units - LUCK_UPGRADE_COST,
         doubleInvestChance := p.doubleInvestChance + LUCK_UPGRADE_STEP)
    else p
  }

  /** The record after reading a save: every field comes from the save,
      plus the offline earnings from when it was written to the clock
      reading `now`; the save time is a second clock reading, `later`. */
  function Loaded(s: SaveRecord, now: int, later: int): (q: Account)
    ensures q.name == s.name && q.rate == s.rate && q.lastSaved == later
    ensures q.idleBonus == s.idleBonus && q.doubleInvestChance == s.doubleInvestChance
  {
    Account(s.name, s.units + OfflineGain(s.rate, now - s.savedAt, s.idleBonus), s.rate, later,
            s.idleBonus, s.doubleInvestChance)
  }

  /** One second of idle earnings. */
  function Ticked(p: Account): (q: Account)
    ensures q == p.(units := q.units)
  {
    p.(units := p.units + p.rate * TickMultiplier(p.idleBonus))
  }

  /** The record keeps its quantities non-negative. */
  predicate Healthy(p: Account) {
    p.units >= 0.0 && p.rate >= 0.0 && p.idleBonus >= 0.0 && p.doubleInvestChance >= 0.0
  }

  // ---------------------------------------------------------------------
  // Properties of the transitions
  // ---------------------------------------------------------------------

  /** An accepted investment takes exactly the amount, never leaves the
      units negative, and raises the rate by the formula, doubled exactly
      on a lucky roll. */
  lemma InvestEffect(p: Account, amount: real, roll: real)
    requires amount != -1000.0 && p.units >= amount
    ensures Invested(p, amount, roll).units == p.units - amount >= 0.0
    ensures Invested(p, amount, roll).rate - p.rate
            == (if roll < Min(p.doubleInvestChance, LUCK_CAP) then 2.0 else 1.0)
               * BaseIncrease(amount)
    ensures amount >= 0.0 ==> Invested(p, amount, roll).rate >= p.rate
  {
  }

  /** As written, every negative amount other than -1000 is accepted
      from a player with non-negative units, and it raises the units. */
  lemma NegativeInvestmentMints(p: Account, amount: real, roll: real)
    requires amount < 0.0 && amount != -1000.0 && p.units >= 0.0
    ensures Invested(p, amount, roll).units == p.units - amount > p.units
  {
  }

  /** The concrete case: a player with no units "invests" -500 and gets
      500 units and half a unit per second of extra rate. */
  lemma NegativeInvestmentExample()
    ensures Invested(NEW_ACCOUNT, -500.0, 1.0).units == 500.0
    ensures Invested(NEW_ACCOUNT, -500.0, 1.0).rate == 1.5
  {
    assert BaseIncrease(-500.0) == 0.5;
  }

  /** With the corrected guard, investing never adds units, never lowers
      the rate, and keeps a healthy record healthy. */
  lemma InvestCheckedSound(p: Account, amount: real, roll: real)
    ensures InvestedChecked(p, amount, roll).units <= p.units
    ensures InvestedChecked(p, amount, roll).rate >= p.rate
    ensures Healthy(p) ==> Healthy(InvestedChecked(p, amount, roll))
  {
    if amount > 0.0 && p.units >= amount {
      assert RateIncrease(amount, roll, p.doubleInvestChance) >= 0.0;
    }
  }

  /** An upgrade goes through exactly when its guard holds, and then costs
      exactly its price and moves exactly its own field; units never go
      negative, and a refused choice changes nothing. */
  lemma UnlockEffect(p: Account, choice: int)
    ensures Unlocked(p, choice).units >= 0.0 || Unlocked(p, choice) == p
    ensures Healthy(p) ==> Healthy(Unlocked(p, choice))
    ensures choice != 1 && choice != 2 ==> Unlocked(p, choice) == p
    ensures choice == 1 && p.idleBonus < 1.0 && p.units >= IDLE_UPGRADE_COST ==>
      Unlocked(p, choice) == p.(units := p.units - IDLE_UPGRADE_COST,
                                idleBonus := p.idleBonus + IDLE_UPGRADE_STEP)
    ensures choice == 2 && p.doubleInvestChance < LUCK_CAP && p.units >= LUCK_UPGRADE_COST ==>
      Unlocked(p, choice) == p.(units := p.units - LUCK_UPGRADE_COST,
                                doubleInvestChance := p.doubleInvestChance + LUCK_UPGRADE_STEP)
    ensures choice == 1 && Unlocked(p, choice) != p ==>
      p.idleBonus < 1.0 && p.units >= IDLE_UPGRADE_COST
      && Unlocked(p, choice) == p.(units := p.units - IDLE_UPGRADE_COST,
                                   idleBonus := p.idleBonus + IDLE_UPGRADE_STEP)
    ensures choice == 2 && Unlocked(p, choice) != p ==>
      p.doubleInvestChance < LUCK_CAP && p.units >= LUCK_UPGRADE_COST
      && Unlocked(p, choice) == p.(units := p.units - LUCK_UPGRADE_COST,
                                   doubleInvestChance := p.doubleInvestChance + LUCK_UPGRADE_STEP)
  {
  }

  /** The idle bonus can be bought up to just past 1.0; the luck chance up
      to just past its cap. */
  lemma UpgradeCaps(p: Account, choice: int)
    requires p.idleBonus < 1.0 + IDLE_UPGRADE_STEP
    requires p.doubleInvestChance < LUCK_CAP + LUCK_UPGRADE_STEP
    ensures Unlocked(p, choice).idleBonus < 1.0 + IDLE_UPGRADE_STEP
    ensures Unlocked(p, choice).doubleInvestChance < LUCK_CAP + LUCK_UPGRADE_STEP
  {
  }

  /** An idle tick adds between one and two times the rate to a healthy
      record, and keeps it healthy. */
  lemma {:induction false} TickEffect(p: Account)
    requires Healthy(p)
    ensures p.units + p.rate <= Ticked(p).units <= p.units + 2.0 * p.rate
    ensures Healthy(Ticked(p))
  {
    var m := TickMultiplier(p.idleBonus);
    assert Ticked(p).units == p.units + p.rate * m;
    MonotoneProduct(p.rate, 1.0, m);
    MonotoneProduct(p.rate, m, 2.0);
    assert p.rate * 1.0 == p.rate;
    assert p.rate * 2.0 == 2.0 * p.rate;
    assert p.units + p.rate <= p.units + p.rate * m <= p.units + 2.0 * p.rate;
  }

  /** Loading a healthy save made in the past gives a healthy record whose
      units are at least the saved ones. */
  lemma {:induction false} LoadedEffect(s: SaveRecord, now: int, later: int)
    requires s.units >= 0.0 && s.rate >= 0.0 && s.idleBonus >= 0.0
    requires s.doubleInvestChance >= 0.0 && now >= s.savedAt
    ensures Loaded(s, now, later).units >= s.units
    ensures Healthy(Loaded(s, now, later))
  {
    OfflineGainBounds(s.rate, now - s.savedAt, s.idleBonus);
    NonNegativeProduct(s.rate, (now - s.savedAt) as real);
  }

  // ---------------------------------------------------------------------
  // The player record, updated in place
  // ---------------------------------------------------------------------

  class Player {
    var name: string
    var units: real
    var rate: real
    var lastSaved: int
    var idleBonus: real
    var doubleInvestChance: real

    function State(): (a: Account)
      reads this
    {
      Account(name, units, rate, lastSaved, idleBonus, doubleInvestChance)
    }

    constructor ()
      ensures State() == NEW_ACCOUNT
    {
      name := "";
      units := 0.0;
      rate := 1.0;
      lastSaved := 0;
      idleBonus := 0.0;
      doubleInvestChance := 0.0;
    }

    /** `invest(p, amount)` with the random roll in [0, 1] as an input. */
    method Invest(amount: real, roll: real)
      requires amount != -1000.0
      modifies this
      ensures State() == Invested(old(State()), amount, roll)
    {
      if units < amount {
        return;
      }
      units := units - amount;
      var gain := (amount * amount) / (amount + 1000.0);
      var rateIncrease := gain * 0.001;
      if roll < Min(doubleInvestChance, LUCK_CAP) {
        rateIncrease := rateIncrease * 2.0;
      }
      rate := rate + rateIncrease;
    }

    /** Invest with the corrected guard. */
    method InvestChecked(amount: real, roll: real)
      modifies this
      ensures State() == InvestedChecked(old(State()), amount, roll)
    {
      if amount <= 0.0 || units < amount {
        return;
      }
      Invest(amount, roll);
    }

    method UnlockMenu(choice: int)
      modifies this
      ensures State() == Unlocked(old(State()), choice)
    {
      if choice == 1 && idleBonus < 1.0 && units >= IDLE_UPGRADE_COST {
        units := units - IDLE_UPGRADE_COST;
        idleBonus := idleBonus + IDLE_UPGRADE_STEP;
      } else if choice == 2 && doubleInvestChance < LUCK_CAP && units >= LUCK_UPGRADE_COST {
        units := units - LUCK_UPGRADE_COST;
        doubleInvestChance := doubleInvestChance + LUCK_UPGRADE_STEP;
      }
    }

    /** `loadGame`: `save` is the file's content, None when there is no
        file; `now` and `later` are the two clock readings, for the
        elapsed time and for the new save time. */
    method LoadGame(save: Option<SaveRecord>, now: int, later: int) returns (ok: bool)
      modifies this
      ensures ok == save.Some?
      ensures ok ==> State() == Loaded(save.value, now, later)
      ensures !ok ==> State() == old(State())
    {
      if save.None? {
        return false;
      }
      var s := save.value;
      name, units, rate, idleBonus, doubleInvestChance :=
        s.name, s.units, s.rate, s.idleBonus, s.doubleInvestChance;
      var elapsed := now - s.savedAt;
      var efficiency := 0.10 + Min(idleBonus, 1.0);
      units := units + rate * (elapsed as real) * efficiency;
      lastSaved := later;
      return true;
    }

    /** Start-up after the name is chosen: load the save, or start from no
        units at rate 1. */
    method Resume(save: Option<SaveRecord>, now: int, later: int)
      modifies this
      ensures save.Some? ==> State() == Loaded(save.value, now, later)
      ensures save.None? ==> State() == old(State()).(units := 0.0, rate := 1.0)
    {
      var ok := LoadGame(save, now, later);
      if !ok {
        units := 0.0;
        rate := 1.0;
      }
    }

    /** One pass of the idle thread's loop body. */
    method IdleGain()
      modifies this
      ensures State() == Ticked(old(State()))
    {
      var multiplier := 1.0 + Min(idleBonus, 1.0);
      units := units + rate * multiplier;
    }
  }

  // ---------------------------------------------------------------------
  // Names
  // ---------------------------------------------------------------------

  function SanitizedChar(c: char): (d: char) {
    if c == ' ' then '_' else c
  }

  /** The name with every space replaced by an underscore. */
  function Sanitized(s: string): (r: string)
    ensures |r| == |s|
    ensures forall i :: 0 <= i < |s| ==> r[i] == SanitizedChar(s[i])
  {
    if |s| == 0 then [] else [SanitizedChar(s[0])] + Sanitized(s[1..])
  }

  /** No spaces remain, every other character stays at its index, and a
      second pass changes nothing. */
  lemma SanitizedProperties(s: string)
    ensures forall i :: 0 <= i < |s| ==> Sanitized(s)[i] != ' '
    ensures forall i :: 0 <= i < |s| && s[i] != ' ' ==> Sanitized(s)[i] == s[i]
    ensures forall i :: 0 <= i < |s| && s[i] == ' ' ==> Sanitized(s)[i] == '_'
    ensures Sanitized(Sanitized(s)) == Sanitized(s)
  {
  }

  /** `sanitizeName`: rewrites the characters of the buffer in place. */
  method SanitizeName(name: array<char>)
    modifies name
    ensures name[..] == Sanitized(old(name[..]))
  {
    for i := 0 to name.Length
      invariant forall k :: 0 <= k < i ==> name[k] == SanitizedChar(old(name[k]))
      invariant forall k :: i <= k < name.Length ==> name[k] == old(name[k])
    {
      if name[i] == ' ' {
        name[i] := '_';
      }
    }
  }

  /** One leaderboard row: a player name and that player's units. */
  datatype Entry = Entry(name: string, units: real)

  predicate OnBoard(board: seq<Entry>, name: string) {
    exists e :: e in board && e.name == name
  }

  /** A name may be played when nobody on the board has it, or when it is
      the name of this machine's save. */
  predicate NameAccepted(name: string, board: seq<Entry>, hasSave: bool, savedName: string): (ok: bool)
    ensures !OnBoard(board, name) ==> ok
    ensures ok && OnBoard(board, name) ==> hasSave && name == savedName
    ensures hasSave && name == savedName ==> ok
  {
    !OnBoard(board, name) || (hasSave && name == savedName)
  }

  /** The name prompt: each typed name is sanitized in place and checked;
      the first accepted one is taken. `typed` is the sequence of names
      the user enters; None means every one of them was refused. */
  method ChooseName(typed: seq<string>, board: seq<Entry>, hasSave: bool, savedName: string)
    returns (chosen: Option<string>, tries: nat)
    ensures tries <= |typed|
    ensures forall k :: 0 <= k < |typed| && (chosen.None? || k < tries - 1) ==>
              !NameAccepted(Sanitized(typed[k]), board, hasSave, savedName)
    ensures chosen.None? ==> tries == |typed|
    ensures chosen.Some? ==> 0 < tries && chosen.value == Sanitized(typed[tries - 1])
                             && NameAccepted(chosen.value, board, hasSave, savedName)
  {
    tries := 0;
    while tries < |typed|
      invariant tries <= |typed|
      invariant forall k :: 0 <= k < tries ==>
                  !NameAccepted(Sanitized(typed[k]), board, hasSave, savedName)
    {
      var w := typed[tries];
      var buffer := new char[|w|];
      forall j | 0 <= j < |w| {
        buffer[j] := w[j];
      }
      assert buffer[..] == w;
      SanitizeName(buffer);
      var name := buffer[..];
      tries := tries + 1;
      if NameAccepted(name, board, hasSave, savedName) {
        return Some(name), tries;
      }
    }
    return None, tries;
  }

  // ---------------------------------------------------------------------
  // Leaderboard
  // ---------------------------------------------------------------------

  /** Units never increase along the sequence. */
  predicate Descending(s: seq<Entry>): (d: bool)
    ensures d ==> forall p :: 0 <= p < |s| - 1 ==> s[p].units >= s[p + 1].units
    ensures d && |s| > 0 ==> forall q :: 0 <= q < |s| ==> s[0].units >= s[q].units
  {
    forall p, q :: 0 <= p < q < |s| ==> s[p].units >= s[q].units
  }

  /** Sorts the rows by units, largest first (the order of equal rows is
      unspecified, as with `std::sort`). */
  method SortByUnits(a: array<Entry>)
    modifies a
    ensures Descending(a[..])
    ensures multiset(a[..]) == multiset(old(a[..]))
  {
    var i := 0;
    while i < a.Length
      invariant 0 <= i <= a.Length
      invariant Descending(a[..i])
      invariant multiset(a[..]) == multiset(old(a[..]))
    {
      InsertLast(a, i);
      i := i + 1;
    }
  }

  /** Moves a[i] left past every smaller row, so that a[..i+1] is sorted
      when a[..i] was. */
  method InsertLast(a: array<Entry>, i: nat)
    requires i < a.Length && Descending(a[..i])
    modifies a
    ensures Descending(a[..i + 1])
    ensures multiset(a[..]) == multiset(old(a[..]))
  {
    InsertStart(a[..], i);
    var j := i;
    while j > 0 && a[j - 1].units < a[j].units
      invariant 0 <= j <= i
      invariant Inserting(a[..], i, j)
      invariant multiset(a[..]) == multiset(old(a[..]))
    {
      SwapLeft(a, i, j);
      j := j - 1;
    }
    InsertDone(a[..], i, j);
  }

  /** One exchange of the insertion: row j and the smaller row before it. */
  method SwapLeft(a: array<Entry>, i: nat, j: nat)
    requires 0 < j <= i < a.Length && Inserting(a[..], i, j)
    requires a[j - 1].units < a[j].units
    modifies a
    ensures Inserting(a[..], i, j - 1)
    ensures multiset(a[..]) == multiset(old(a[..]))
  {
    ghost var before := a[..];
    a[j - 1], a[j] := a[j], a[j - 1];
    assert a[..] == before[j - 1 := before[j]][j := before[j - 1]];
    SwapKeepsMultiset(before, j - 1, j);
    InsertSwap(before, i, j);
  }

  /** The state of the insertion of row i while it sits at j: the rows of
      a[..i+1] other than j are in order, and row j exceeds every row it
      has passed. */
  ghost predicate Inserting(s: seq<Entry>, i: nat, j: nat)
    requires j <= i < |s|
  {
    (forall p, q :: 0 <= p < q <= i && p != j && q != j ==> s[p].units >= s[q].units)
    && (forall q :: j < q <= i ==> s[j].units > s[q].units)
  }

  lemma InsertStart(s: seq<Entry>, i: nat)
    requires i < |s| && Descending(s[..i])
    ensures Inserting(s, i, i)
  {
    forall p, q | 0 <= p < q <= i && p != i && q != i
      ensures s[p].units >= s[q].units
    {
      assert s[p] == s[..i][p] && s[q] == s[..i][q];
    }
  }

  lemma InsertSwap(s: seq<Entry>, i: nat, j: nat)
    requires 0 < j <= i < |s| && Inserting(s, i, j) && s[j - 1].units < s[j].units
    ensures Inserting(s[j - 1 := s[j]][j := s[j - 1]], i, j - 1)
  {
  }

  lemma InsertDone(s: seq<Entry>, i: nat, j: nat)
    requires j <= i < |s| && Inserting(s, i, j)
    requires j == 0 || s[j - 1].units >= s[j].units
    ensures Descending(s[..i + 1])
  {
    var t := s[..i + 1];
    forall p, q | 0 <= p < q < |t|
      ensures t[p].units >= t[q].units
    {
      if p != j && q != j {
      } else if p == j {
      } else {
        assert q == j && p <= j - 1;
        if p < j - 1 {
          assert s[p].units >= s[j - 1].units;
        }
      }
    }
  }

  lemma SwapKeepsMultiset(s: seq<Entry>, p: nat, q: nat)
    requires p < q < |s|
    ensures multiset(s[p := s[q]][q := s[p]]) == multiset(s)
  {
    var a, b := s[p], s[q];
    var s1 := s[p := b];
    assert multiset(s1) == multiset(s) - multiset{a} + multiset{b};
    assert s1[q] == b;
    assert multiset(s1[q := a]) == multiset(s1) - multiset{b} + multiset{a};
    assert a in multiset(s);
  }

  /** `showLeaderboard`: the board's rows ranked by units, and the first
      ten of them (or all, when there are fewer) as displayed. */
  method ShowLeaderboard(board: seq<Entry>) returns (ranked: seq<Entry>, shown: seq<Entry>)
    ensures |ranked| == |board| && multiset(ranked) == multiset(board)
    ensures Descending(ranked)
    ensures |shown| == if |board| < TOP then |board| else TOP
    ensures shown == ranked[..|shown|]
  {
    var a := new Entry[|board|];
    forall k | 0 <= k < |board| {
      a[k] := board[k];
    }
    assert a[..] == board;
    SortByUnits(a);
    ranked := a[..];
    shown := [];
    var count := 0;
    while count < |ranked| && count < TOP
      invariant count <= |ranked| && count <= TOP
      invariant shown == ranked[..count]
    {
      shown := shown + [ranked[count]];
      count := count + 1;
    }
  }

  /** Every displayed row has at least the units of every row not shown. */
  lemma {:induction false} ShownDominate(ranked: seq<Entry>, k: nat)
    requires Descending(ranked) && k <= |ranked|
    ensures forall e, f :: e in ranked[..k] && f in ranked[k..] ==> e.units >= f.units
  {
    forall e, f | e in ranked[..k] && f in ranked[k..]
      ensures e.units >= f.units
    {
      var p :| 0 <= p < k && ranked[p] == e;
      var q :| k <= q < |ranked| && ranked[q] == f;
    }
  }
}
