/** Turn controller of the battle: two sides of three combatants each, turn
    order by speed, attacks and voluntary switches, forced replacement after a
    faint, and win detection. The players' choices and the random rolls come
    from outside as function values that only ever give valid answers. */
module TurnController {
  import opened Engine

  /** Number of combatants on each side. */
  const MaxPkm: int := 3

  datatype Player = One | Two

  function Other(p: Player): (q: Player)
    ensures q != p
  {
    if p == One then Two else One
  }

  /** A player's choice for a turn, numbered as on the menu: a move 1..4, or
      the switch option naming a slot 1..3 of the player's own team. */
  datatype Action = Fight(move: int) | Switch(slot: int)

  /** The choice is on the menu; a switch names a slot holding a member that
      is still alive. */
  predicate ValidAction(team: seq<Combatant>, action: Action) {
    match action
    case Fight(m) => 1 <= m <= MaxMoves
    case Switch(t) => 1 <= t <= |team| && team[t - 1].alive
  }

  /** Some member of the team is still alive. */
  predicate HasAlive(team: seq<Combatant>) {
    exists i :: 0 <= i < |team| && team[i].alive
  }

  /** Who moves first in a round: the faster active combatant, the first
      player on a tie. */
  function TurnOrder(c1: Combatant, c2: Combatant): (first: Player)
    ensures first == One <==> c1.spe >= c2.spe
    ensures c1.spe == c2.spe ==> first == One
  {
    if c2.spe > c1.spe then Two else One
  }

  /** The combatant after taking `dmg` damage: health goes down by `dmg` but
      not below zero, and health zero clears the alive flag. */
  function Hit(c: Combatant, dmg: int): (h: Combatant)
    ensures h.(hp := c.hp, alive := c.alive) == c
    ensures h.hp >= 0
    ensures dmg >= 0 && c.hp >= 0 ==> h.hp <= c.hp
    ensures h.hp == c.hp - dmg || (h.hp == 0 && c.hp <= dmg)
    ensures h.alive <==> c.alive && c.hp > dmg
    ensures Sound(c) && dmg >= 0 ==> Sound(h)
  {
    var left := c.hp - dmg;
    if left <= 0 then c.(hp := 0, alive := false) else c.(hp := left)
  }

  /** Damage never heals, and any hit at least as large as the current health
      knocks the combatant out. */
  lemma HitKnocksOut(c: Combatant, dmg: int)
    requires Sound(c) && dmg >= 1
    ensures Hit(c, dmg).hp < c.hp || c.hp == 0
    ensures !Hit(c, dmg).alive <==> dmg >= c.hp
  {
  }

  /** The combatant after a series of hits in order, as it takes one on each
      turn it is the target. */
  function HitAll(c: Combatant, dmgs: seq<int>): (h: Combatant)
    ensures h.(hp := c.hp, alive := c.alive) == c
    ensures AllPositive(dmgs) && c.hp >= 0 ==> 0 <= h.hp <= c.hp
    ensures AllPositive(dmgs) && Sound(c) ==> Sound(h)
    ensures !c.alive ==> !h.alive
    decreases |dmgs|
  {
    if dmgs == [] then c else HitAll(Hit(c, dmgs[0]), dmgs[1..])
  }

  predicate AllPositive(dmgs: seq<int>) {
    forall k :: 0 <= k < |dmgs| ==> dmgs[k] >= 1
  }

  function Total(dmgs: seq<int>): int {
    if dmgs == [] then 0 else dmgs[0] + Total(dmgs[1..])
  }

  /** Damage accumulates: after a series of hits the health is what is left
      of the total damage, never below zero, and the combatant has fainted
      exactly when the total reached its health. */
  lemma {:induction false} HitAllTotal(c: Combatant, dmgs: seq<int>)
    requires Sound(c) && AllPositive(dmgs)
    ensures HitAll(c, dmgs).hp == (if c.hp - Total(dmgs) <= 0 then 0 else c.hp - Total(dmgs))
    ensures HitAll(c, dmgs).alive <==> Total(dmgs) < c.hp
    decreases |dmgs|
  {
    if dmgs != [] {
      var rest := dmgs[1..];
      assert AllPositive(rest) by {
        forall k | 0 <= k < |rest| ensures rest[k] >= 1 {
          assert rest[k] == dmgs[k + 1];
        }
      }
      TotalNonneg(rest);
      HitAllTotal(Hit(c, dmgs[0]), rest);
    }
  }

  lemma {:induction false} TotalNonneg(dmgs: seq<int>)
    requires AllPositive(dmgs)
    ensures Total(dmgs) >= 0
  {
    if dmgs != [] {
      var rest := dmgs[1..];
      assert AllPositive(rest) by {
        forall k | 0 <= k < |rest| ensures rest[k] >= 1 {
          assert rest[k] == dmgs[k + 1];
        }
      }
      TotalNonneg(rest);
    }
  }


  /** `after` is the team `before` worn down by the battle: the same members
      in the same slots, differing at most in health and the alive flag, with
      health never higher and a fainted member still fainted. */
  predicate Worn(before: seq<Combatant>, after: seq<Combatant>) {
    |after| == |before| &&
    forall i :: 0 <= i < |before| ==>
      after[i].(hp := before[i].hp, alive := before[i].alive) == before[i] &&
      after[i].hp <= before[i].hp && (!before[i].alive ==> !after[i].alive)
  }

  lemma WornReflexive(a: seq<Combatant>)
    ensures Worn(a, a)
  {
  }

  lemma WornTransitive(a: seq<Combatant>, b: seq<Combatant>, c: seq<Combatant>)
    requires Worn(a, b) && Worn(b, c)
    ensures Worn(a, c)
  {
    forall i | 0 <= i < |a|
      ensures c[i].(hp := a[i].hp, alive := a[i].alive) == a[i]
    {
      assert c[i].(hp := b[i].hp, alive := b[i].alive) == b[i];
      assert b[i].(hp := a[i].hp, alive := a[i].alive) == a[i];
    }
  }

  /** What one turn did. `Fainted`: the opponent's active combatant fainted
      and has a teammate left to replace it; `Defeated`: it fainted and none
      of its team is alive. */
  datatype TurnOutcome =
    | Skipped
    | Switched(slot: int)
    | Damaged(damage: int)
    | Fainted(damage: int)
    | Defeated(damage: int)
  {
    predicate Attacked() {
      Damaged? || Fainted? || Defeated?
    }
  }

  datatype Event = Event(actor: Player, action: Action, outcome: TurnOutcome)

  lemma NoSkipsAppend(a: seq<Event>, b: seq<Event>)
    requires NoSkips(a) && NoSkips(b)
    ensures NoSkips(a + b)
  {
    forall k | 0 <= k < |a + b| ensures !(a + b)[k].outcome.Skipped? {
      if k >= |a| {
        assert (a + b)[k] == b[k - |a|];
      }
    }
  }

  /** The last turn of a non-empty series defeated a team. */
  predicate LastDefeated(events: seq<Event>) {
    |events| > 0 && events[|events| - 1].outcome.Defeated?
  }

  predicate NoSkips(log: seq<Event>) {
    forall k :: 0 <= k < |log| ==> !log[k].outcome.Skipped?
  }

  // ---------------------------------------------------------------------
  // The battle as values: what each step of the loop in origem.c main does
  // to the two teams and the two active indices.

  /** One player's team with the index of its active combatant. */
  datatype SideState = SideState(team: seq<Combatant>, active: int)

  predicate SideValid(s: SideState) {
    |s.team| == MaxPkm && 0 <= s.active < MaxPkm &&
    forall i :: 0 <= i < MaxPkm ==> Sound(s.team[i])
  }

  /** Between turns the active combatant is alive. */
  predicate SideReady(s: SideState) {
    SideValid(s) && s.team[s.active].alive
  }

  lemma ReadyHasAlive(s: SideState)
    requires SideReady(s)
    ensures HasAlive(s.team)
  {
    assert s.team[s.active].alive;
  }

  /** The two sides after a turn of `me` against `foe`, with the action taken
      and what it did. */
  datatype TurnResult = TurnResult(me: SideState, foe: SideState, action: Action, outcome: TurnOutcome)

  /** One turn of `me` against `foe` (origem.c lines 223-258 for the first
      player, 259-292 for the second): skipped when the acting combatant has
      fainted; otherwise a switch, or a move whose damage lands on the
      opponent's active combatant. A faint is reported so that the caller
      asks for a replacement, or ends the battle. */
  function Resolve(me: SideState, foe: SideState, action: Action, r: int): (res: TurnResult)
    requires SideValid(me) && SideValid(foe) && ValidAction(me.team, action) && 217 <= r <= 255
    ensures SideValid(res.me) && SideValid(res.foe) && res.action == action
    ensures res.me.team == me.team && res.foe.active == foe.active
    ensures res.outcome.Skipped? <==> !me.team[me.active].alive
    ensures res.outcome.Skipped? ==> res.me == me && res.foe == foe
    ensures res.outcome.Switched? <==> !res.outcome.Skipped? && action.Switch?
    ensures res.outcome.Switched? ==>
              res.outcome.slot == action.slot && res.me.active == action.slot - 1 && res.foe == foe
    ensures res.outcome.Attacked() ==>
              action.Fight? && res.me == me &&
              res.outcome.damage == CalculateDamage(me.team[me.active], foe.team[foe.active],
                                                    me.team[me.active].moves[action.move - 1], r) &&
              res.foe.team == foe.team[foe.active := Hit(foe.team[foe.active], res.outcome.damage)]
    ensures !res.outcome.Skipped? ==> SideReady(res.me)
    ensures res.outcome.Damaged? ==> SideReady(res.foe)
    ensures res.outcome.Fainted? ==> !SideReady(res.foe) && HasAlive(res.foe.team)
    ensures res.outcome.Defeated? ==> !HasAlive(res.foe.team)
    ensures Worn(foe.team, res.foe.team)
  {
    if !me.team[me.active].alive then TurnResult(me, foe, action, Skipped)
    else match action
      case Switch(t) => TurnResult(me.(active := t - 1), foe, action, Switched(t))
      case Fight(m) =>
        var attacker := me.team[me.active];
        var dmg := CalculateDamage(attacker, foe.team[foe.active], attacker.moves[m - 1], r);
        var target := Hit(foe.team[foe.active], dmg);
        var after := foe.(team := foe.team[foe.active := target]);
        TurnResult(me, after, action,
                   if target.alive then Damaged(dmg)
                   else if HasAlive(after.team) then Fainted(dmg)
                   else Defeated(dmg))
  }

  /** The two input collaborators of a player. `choose` picks the action,
      given the number of turns taken so far in the battle, the player's
      team, its active index and the opposing active combatant; `replace`
      picks the replacement slot after a faint, given the turn number and
      the team. */
  datatype Controller = Controller(
    choose: (nat, seq<Combatant>, int, Combatant) -> Action,
    replace: (nat, seq<Combatant>) -> int)

  /** The controller only gives validated answers: every action is on the
      menu, and a replacement names a live member whenever there is one. */
  ghost predicate Honest(c: Controller) {
    (forall turn: nat, team: seq<Combatant>, active: int, foe: Combatant ::
       ValidAction(team, c.choose(turn, team, active, foe))) &&
    (forall turn: nat, team: seq<Combatant> :: HasAlive(team) ==>
       1 <= c.replace(turn, team) <= |team| && team[c.replace(turn, team) - 1].alive)
  }

  /** Every random roll lies in 217..255. */
  ghost predicate RollsInRange(rng: nat -> int) {
    forall k :: 217 <= rng(k) <= 255
  }

  /** Turn number `turn` of `me`, whose active combatant is alive, against
      `foe`: the action comes from `mine`, and after a faint with teammates
      left `theirs` names the replacement at once (origem.c lines 247-253
      and 281-287). */
  function Act(me: SideState, foe: SideState, mine: Controller, theirs: Controller, turn: nat, r: int)
    : (res: TurnResult)
    requires SideReady(me) && SideReady(foe) && Honest(mine) && Honest(theirs) && 217 <= r <= 255
    ensures SideReady(res.me) && SideValid(res.foe) && res.me.team == me.team
    ensures res.action == mine.choose(turn, me.team, me.active, foe.team[foe.active])
    ensures !res.outcome.Skipped?
    ensures res.outcome.Switched? <==> res.action.Switch?
    ensures res.outcome.Defeated? <==> !HasAlive(res.foe.team)
    ensures !res.outcome.Defeated? ==> SideReady(res.foe)
    ensures res.outcome.Fainted? ==> res.foe.active == theirs.replace(turn, res.foe.team) - 1
    ensures !res.outcome.Fainted? ==> res.foe.active == foe.active
    ensures Worn(foe.team, res.foe.team)
  {
    var action := mine.choose(turn, me.team, me.active, foe.team[foe.active]);
    var res := Resolve(me, foe, action, r);
    ReadyHasAlive(foe);
    if res.outcome.Fainted? then
      res.(foe := res.foe.(active := theirs.replace(turn, res.foe.team) - 1))
    else
      if res.outcome.Damaged? then ReadyHasAlive(res.foe); res else res
  }

  /** Both sides, player 1's first. */
  datatype Snapshot = Snapshot(side1: SideState, side2: SideState)

  /** Some team has nobody alive: the battle is decided. */
  predicate Over(s: Snapshot) {
    !HasAlive(s.side1.team) || !HasAlive(s.side2.team)
  }

  /** Both active combatants are alive, as at the start of every round. */
  predicate InPlay(s: Snapshot) {
    SideReady(s.side1) && SideReady(s.side2)
  }

  /** The state after any complete turn: some team still has a member alive,
      and unless the battle is decided both active combatants are alive. */
  predicate Between(s: Snapshot) {
    SideValid(s.side1) && SideValid(s.side2) &&
    (HasAlive(s.side1.team) || HasAlive(s.side2.team)) &&
    (!Over(s) ==> InPlay(s))
  }

  datatype Played = Played(state: Snapshot, event: Event)

  /** Turn number `turn`, taken by player `p` on its own side against the
      other one (origem.c lines 221-292). */
  function Turn(s: Snapshot, p: Player, c1: Controller, c2: Controller, turn: nat, r: int): (res: Played)
    requires InPlay(s) && Honest(c1) && Honest(c2) && 217 <= r <= 255
    ensures Between(res.state)
    ensures res.event.actor == p && !res.event.outcome.Skipped?
    ensures p == One ==> res.state.side1.team == s.side1.team
    ensures p == Two ==> res.state.side2.team == s.side2.team
    ensures res.event.outcome.Defeated? <==> Over(res.state)
    ensures Worn(s.side1.team, res.state.side1.team) && Worn(s.side2.team, res.state.side2.team)
  {
    if p == One then
      var t := Act(s.side1, s.side2, c1, c2, turn, r);
      ReadyHasAlive(t.me);
      Played(Snapshot(t.me, t.foe), Event(p, t.action, t.outcome))
    else
      var t := Act(s.side2, s.side1, c2, c1, turn, r);
      ReadyHasAlive(t.me);
      Played(Snapshot(t.foe, t.me), Event(p, t.action, t.outcome))
  }

  /** The roll counter after an event: a roll is drawn only for an attack. */
  function NextDraw(e: Event, draws: nat): nat {
    if e.outcome.Attacked() then draws + 1 else draws
  }

  datatype RoundResult = RoundResult(state: Snapshot, events: seq<Event>, draws: nat)

  /** One round (origem.c lines 215-297): the faster player acts first, then
      the other, unless the first turn decided the battle. No turn is
      skipped, a roll is drawn at most once a turn, and the round ends in a
      decided battle exactly when its last turn defeated a team. Rolls are
      drawn in order from `rng`, starting at index `draws`; `turn` numbers
      the first decision of the round. */
  function Round(s: Snapshot, c1: Controller, c2: Controller, rng: nat -> int, draws: nat, turn: nat)
    : (res: RoundResult)
    requires InPlay(s) && Honest(c1) && Honest(c2) && RollsInRange(rng)
    ensures Between(res.state)
    ensures 1 <= |res.events| <= 2 && NoSkips(res.events)
    ensures res.events[0].actor == TurnOrder(s.side1.team[s.side1.active], s.side2.team[s.side2.active])
    ensures |res.events| == 2 ==> res.events[1].actor == Other(res.events[0].actor)
    ensures |res.events| == 1 <==> res.events[0].outcome.Defeated?
    ensures Over(res.state) <==> LastDefeated(res.events)
    ensures draws <= res.draws <= draws + |res.events|
    ensures Worn(s.side1.team, res.state.side1.team) && Worn(s.side2.team, res.state.side2.team)
  {
    var first := TurnOrder(s.side1.team[s.side1.active], s.side2.team[s.side2.active]);
    var t1 := Turn(s, first, c1, c2, turn, rng(draws));
    var res := RoundRest(t1, c1, c2, rng, NextDraw(t1.event, draws), turn + 1);
    WornTransitive(s.side1.team, t1.state.side1.team, res.state.side1.team);
    WornTransitive(s.side2.team, t1.state.side2.team, res.state.side2.team);
    res
  }

  /** The rest of a round after its first turn `t1`: the check for a decided
      battle (origem.c line 296), then the other player's turn. */
  function RoundRest(t1: Played, c1: Controller, c2: Controller, rng: nat -> int, draws: nat, turn: nat)
    : (res: RoundResult)
    requires Between(t1.state) && Honest(c1) && Honest(c2) && RollsInRange(rng)
    ensures Between(res.state)
    ensures 1 <= |res.events| <= 2 && res.events[0] == t1.event
    ensures |res.events| == 1 <==> Over(t1.state)
    ensures |res.events| == 2 ==> res.events[1].actor == Other(t1.event.actor)
    ensures !t1.event.outcome.Skipped? ==> NoSkips(res.events)
    ensures (t1.event.outcome.Defeated? <==> Over(t1.state)) ==> (Over(res.state) <==> LastDefeated(res.events))
    ensures draws <= res.draws <= draws + 1
    ensures Worn(t1.state.side1.team, res.state.side1.team) && Worn(t1.state.side2.team, res.state.side2.team)
  {
    if Over(t1.state) then
      WornReflexive(t1.state.side1.team);
      WornReflexive(t1.state.side2.team);
      RoundResult(t1.state, [t1.event], draws)
    else
      var t2 := Turn(t1.state, Other(t1.event.actor), c1, c2, turn, rng(draws));
      RoundResult(t2.state, [t1.event, t2.event], NextDraw(t2.event, draws))
  }

  datatype BattleResult = Winner(player: Player) | Unfinished

  /** The announcement at the end (origem.c lines 300-301): player 1 wins
      exactly when its team has someone alive, player 2 otherwise. A battle
      cut off with both teams alive is unfinished. */
  function Result(s: Snapshot): (b: BattleResult)
    ensures b == Unfinished <==> !Over(s)
    ensures b == Winner(One) <==> HasAlive(s.side1.team) && !HasAlive(s.side2.team)
    ensures b == Winner(Two) <==> !HasAlive(s.side1.team)
  {
    if !Over(s) then Unfinished
    else if HasAlive(s.side1.team) then Winner(One)
    else Winner(Two)
  }

  /** The roll index before round `k` of a series that started at roll 0. */
  function DrawsBefore(rs: seq<RoundResult>, k: int): nat
    requires 0 <= k <= |rs|
  {
    if k == 0 then 0 else rs[k - 1].draws
  }

  /** A rule for playing one round: the state before it, the index of its
      first roll and the number of its first turn give the round. */
  type Step = (Snapshot, nat, nat) -> RoundResult

  /** The rounds of the battle between `c1` and `c2` on the rolls `rng`, as
      a `Step`: from a state where both active combatants are alive it plays
      `Round`; other states have no round and are left as they are. */
  function Rounds(c1: Controller, c2: Controller, rng: nat -> int): Step
    requires Honest(c1) && Honest(c2) && RollsInRange(rng)
  {
    (s: Snapshot, draws: nat, turn: nat) =>
      if InPlay(s) then Round(s, c1, c2, rng, draws, turn) else RoundResult(s, [], draws)
  }

  /** Round `k` of a battle played by `step`: from `states[k]`, where both
      active combatants are alive, it is `step` with the rolls numbered on
      from the round before it and the turns from `turns[k]`; it leaves
      `states[k + 1]`, and its turns are the slice of the log from
      `turns[k]` to `turns[k + 1]`. */
  ghost predicate RoundAt(states: seq<Snapshot>, rs: seq<RoundResult>, turns: seq<nat>, log: seq<Event>,
                          k: int, step: Step)
    requires 0 <= k < |rs| < |states| && |rs| < |turns|
  {
    InPlay(states[k]) && states[k + 1] == rs[k].state &&
    turns[k] <= turns[k + 1] <= |log| && log[turns[k]..turns[k + 1]] == rs[k].events &&
    rs[k] == step(states[k], DrawsBefore(rs, k), turns[k])
  }

  /** `states` are the battle states before each of the rounds `rs` and after
      the last one, and `turns` the number of turns taken before each round
      and after the last one. Every round is `RoundAt` its place, so the
      slices of its rounds, from turn 0 to the end, make up the whole log. */
  ghost predicate Trace(states: seq<Snapshot>, rs: seq<RoundResult>, turns: seq<nat>, log: seq<Event>,
                        step: Step)
  {
    |states| == |rs| + 1 && |turns| == |rs| + 1 && turns[0] == 0 && turns[|rs|] == |log| &&
    forall k :: 0 <= k < |rs| ==> RoundAt(states, rs, turns, log, k, step)
  }

  /** The turns of the rounds `rs`, in order. */
  function Events(rs: seq<RoundResult>): seq<Event> {
    if |rs| == 0 then [] else Events(rs[..|rs| - 1]) + rs[|rs| - 1].events
  }

  /** The log of a trace is the turns of its rounds, in order. */
  lemma TraceLog(states: seq<Snapshot>, rs: seq<RoundResult>, turns: seq<nat>, log: seq<Event>, step: Step)
    requires Trace(states, rs, turns, log, step)
    ensures log == Events(rs)
  {
    LogPrefix(states, rs, turns, log, step, |rs|);
    assert rs[..|rs|] == rs;
    assert log[..|log|] == log;
  }

  /** The log up to round `n` of a trace is the turns of its first `n`
      rounds. */
  lemma {:induction false} LogPrefix(states: seq<Snapshot>, rs: seq<RoundResult>, turns: seq<nat>,
                                     log: seq<Event>, step: Step, n: int)
    requires Trace(states, rs, turns, log, step) && 0 <= n <= |rs|
    ensures turns[n] <= |log| && log[..turns[n]] == Events(rs[..n])
    decreases n
  {
    if n == 0 {
      assert rs[..0] == [];
    } else {
      LogPrefix(states, rs, turns, log, step, n - 1);
      assert RoundAt(states, rs, turns, log, n - 1, step);
      assert rs[..n][..n - 1] == rs[..n - 1];
      assert log[..turns[n]] == log[..turns[n - 1]] + log[turns[n - 1]..turns[n]];
    }
  }

  /** In a trace of the battle's own rounds, round `k` is `Round` of the
      state before it, with the rolls numbered on from the round before and
      the turns from `turns[k]`, and it leaves the state after it. */
  lemma TraceRound(states: seq<Snapshot>, rs: seq<RoundResult>, turns: seq<nat>, log: seq<Event>,
                   c1: Controller, c2: Controller, rng: nat -> int, k: int)
    requires Honest(c1) && Honest(c2) && RollsInRange(rng)
    requires Trace(states, rs, turns, log, Rounds(c1, c2, rng)) && 0 <= k < |rs|
    ensures InPlay(states[k]) && states[k + 1] == rs[k].state
    ensures rs[k] == Round(states[k], c1, c2, rng, DrawsBefore(rs, k), turns[k])
    ensures turns[k] <= turns[k + 1] <= |log| && log[turns[k]..turns[k + 1]] == rs[k].events
  {
    assert RoundAt(states, rs, turns, log, k, Rounds(c1, c2, rng));
  }

  /** A trace grows by a round played from its last state. */
  lemma TraceExtend(states: seq<Snapshot>, rs: seq<RoundResult>, turns: seq<nat>, log: seq<Event>,
                    res: RoundResult, next: nat, step: Step)
    requires Trace(states, rs, turns, log, step) && next == |log| + |res.events|
    requires RoundAt(states + [res.state], rs + [res], turns + [next], log + res.events, |rs|, step)
    ensures Trace(states + [res.state], rs + [res], turns + [next], log + res.events, step)
  {
    EarlierRounds(states, rs, turns, log, res, next, step);
  }

  /** Growing a trace keeps all its earlier rounds in place. */
  lemma EarlierRounds(states: seq<Snapshot>, rs: seq<RoundResult>, turns: seq<nat>, log: seq<Event>,
                      res: RoundResult, next: nat, step: Step)
    requires Trace(states, rs, turns, log, step)
    ensures forall k :: 0 <= k < |rs| ==>
              RoundAt(states + [res.state], rs + [res], turns + [next], log + res.events, k, step)
  {
    forall k | 0 <= k < |rs|
      ensures RoundAt(states + [res.state], rs + [res], turns + [next], log + res.events, k, step)
    {
      EarlierRoundAt(states, rs, turns, log, res, next, k, step);
    }
  }

  /** Growing a trace keeps its earlier rounds in place. */
  lemma EarlierRoundAt(states: seq<Snapshot>, rs: seq<RoundResult>, turns: seq<nat>, log: seq<Event>,
                       res: RoundResult, next: nat, k: int, step: Step)
    requires |states| == |rs| + 1 && |turns| == |rs| + 1 && 0 <= k < |rs|
    requires RoundAt(states, rs, turns, log, k, step)
    ensures RoundAt(states + [res.state], rs + [res], turns + [next], log + res.events, k, step)
  {
    Snoc(states, res.state, k);
    Snoc(states, res.state, k + 1);
    Snoc(turns, next, k);
    Snoc(turns, next, k + 1);
    Snoc(rs, res, k);
    DrawsBeforeSnoc(rs, res, k);
    AppendSlice(log, res.events, turns[k], turns[k + 1]);
  }

  /** The round `step` plays from the last state of a trace is `RoundAt`
      its end. */
  lemma LastRoundAt(states: seq<Snapshot>, rs: seq<RoundResult>, turns: seq<nat>, log: seq<Event>,
                    res: RoundResult, next: nat, step: Step)
    requires |states| == |rs| + 1 && |turns| == |rs| + 1 && turns[|rs|] == |log|
    requires InPlay(states[|rs|]) && next == |log| + |res.events|
    requires res == step(states[|rs|], DrawsBefore(rs, |rs|), |log|)
    ensures RoundAt(states + [res.state], rs + [res], turns + [next], log + res.events, |rs|, step)
  {
    var k := |rs|;
    Snoc(states, res.state, k);
    Snoc(turns, next, k);
    Snoc(rs, res, k);
    DrawsBeforeSnoc(rs, res, k);
    AppendTail(log, res.events);
  }

  /** From a state where both active combatants are alive, the battle's
      `Step` is `Round`. */
  lemma RoundsInPlay(s: Snapshot, c1: Controller, c2: Controller, rng: nat -> int, draws: nat, turn: nat)
    requires Honest(c1) && Honest(c2) && RollsInRange(rng) && InPlay(s)
    ensures Rounds(c1, c2, rng)(s, draws, turn) == Round(s, c1, c2, rng, draws, turn)
  {
  }

  /** A trace of the battle grows by the round played from its last state:
      `states'`, `rs'`, `turns'` and `log'` are the grown trace. */
  lemma NextTrace(states: seq<Snapshot>, rs: seq<RoundResult>, turns: seq<nat>, log: seq<Event>,
                  s: Snapshot, draws: nat, res: RoundResult, next: nat, c1: Controller, c2: Controller,
                  rng: nat -> int, states': seq<Snapshot>, rs': seq<RoundResult>, turns': seq<nat>,
                  log': seq<Event>)
    requires Honest(c1) && Honest(c2) && RollsInRange(rng)
    requires Trace(states, rs, turns, log, Rounds(c1, c2, rng))
    requires s == states[|rs|] && InPlay(s) && draws == DrawsBefore(rs, |rs|)
    requires res == Round(s, c1, c2, rng, draws, |log|) && next == |log| + |res.events|
    requires states' == states + [res.state] && rs' == rs + [res] && turns' == turns + [next]
    requires log' == log + res.events
    ensures Trace(states', rs', turns', log', Rounds(c1, c2, rng))
  {
    RoundsInPlay(s, c1, c2, rng, draws, |log|);
    LastRoundAt(states, rs, turns, log, res, next, Rounds(c1, c2, rng));
    TraceExtend(states, rs, turns, log, res, next, Rounds(c1, c2, rng));
  }

  lemma DrawsBeforeSnoc(rs: seq<RoundResult>, res: RoundResult, k: int)
    requires 0 <= k <= |rs|
    ensures DrawsBefore(rs + [res], k) == DrawsBefore(rs, k)
  {
    if k > 0 {
      Snoc(rs, res, k - 1);
    }
  }

  /** Appending to a sequence keeps its elements. */
  lemma Snoc<T>(a: seq<T>, x: T, k: int)
    requires 0 <= k <= |a|
    ensures (a + [x])[k] == if k < |a| then a[k] else x
  {
  }

  lemma AppendTail<T>(a: seq<T>, b: seq<T>)
    ensures (a + b)[|a|..|a| + |b|] == b
  {
  }

  /** Appending to a sequence keeps its slices. */
  lemma AppendSlice<T>(a: seq<T>, b: seq<T>, i: int, j: int)
    requires 0 <= i <= j <= |a|
    ensures (a + b)[i..j] == a[i..j]
  {
  }

  // ---------------------------------------------------------------------
  // The battle in place: the two teams are arrays of combatant records, as
  // in origem.c, and every step is proved to do what the functions above say.

  /** One player's team and the index of its active combatant. */
  class Side {
    const team: array<Combatant>
    var active: int

    /** The side as a value. */
    function State(): SideState
      reads this, team
    {
      SideState(team[..], active)
    }

    ghost predicate Valid()
      reads this, team
    {
      team.Length == MaxPkm && 0 <= active < MaxPkm &&
      forall i :: 0 <= i < MaxPkm ==> Sound(team[i])
    }

    /** Between turns the active combatant is alive. */
    ghost predicate Ready()
      reads this, team
      requires Valid()
    {
      team[active].alive
    }

    /** A team as the roster table builds it, with the starting member chosen
        by its slot 1..3. */
    constructor (members: seq<Combatant>, start: int)
      requires |members| == MaxPkm && 1 <= start <= MaxPkm
      requires forall i :: 0 <= i < |members| ==> Sound(members[i]) && members[i].alive
      ensures Valid() && Ready()
      ensures fresh(team) && State() == SideState(members, start - 1)
    {
      var a := new Combatant[MaxPkm];
      a[0], a[1], a[2] := members[0], members[1], members[2];
      team := a;
      active := start - 1;
      new;
      assert team[..] == members;
    }

    /** Whether some member is alive (origem.c any_alive). */
    method AnyAlive() returns (b: bool)
      requires team.Length == MaxPkm
      ensures b == HasAlive(team[..])
      ensures !b <==> forall i :: 0 <= i < MaxPkm ==> !team[i].alive
    {
      var i := 0;
      while i < MaxPkm
        invariant 0 <= i <= MaxPkm
        invariant forall j :: 0 <= j < i ==> !team[j].alive
      {
        if team[i].alive {
          assert team[..][i].alive;
          return true;
        }
        i := i + 1;
      }
      assert forall j :: 0 <= j < MaxPkm ==> !team[..][j].alive;
      return false;
    }

    /** Make the member in slot 1..3 the active one; used both for a voluntary
        switch and for the replacement after a faint. */
    method Select(slot: int)
      requires Valid() && 1 <= slot <= MaxPkm && team[slot - 1].alive
      modifies this
      ensures Valid() && Ready()
      ensures active == slot - 1
    {
      active := slot - 1;
    }

    /** The active combatant takes `dmg` damage; no other member changes. */
    method TakeHit(dmg: int)
      requires Valid() && dmg >= 1
      modifies team
      ensures Valid()
      ensures team[..] == old(team[..])[active := Hit(old(team[active]), dmg)]
    {
      team[active] := Hit(team[active], dmg);
    }
  }

  /** One turn of `actor` against `opponent`, in place: it does to the two
      sides exactly what `Resolve` says. */
  method TakeTurn(actor: Side, opponent: Side, action: Action, r: int) returns (outcome: TurnOutcome)
    requires actor != opponent && actor.team != opponent.team
    requires actor.Valid() && opponent.Valid()
    requires ValidAction(actor.team[..], action)
    requires 217 <= r <= 255
    modifies actor, opponent.team
    ensures actor.Valid() && opponent.Valid()
    ensures TurnResult(actor.State(), opponent.State(), action, outcome)
              == Resolve(old(actor.State()), old(opponent.State()), action, r)
  {
    if !actor.team[actor.active].alive {
      return Skipped;
    }
    match action
    case Switch(t) =>
      actor.Select(t);
      outcome := Switched(t);
    case Fight(m) =>
      var attacker := actor.team[actor.active];
      var defender := opponent.team[opponent.active];
      var move := attacker.moves[m - 1];
      var dmg := CalculateDamage(attacker, defender, move, r);
      opponent.TakeHit(dmg);
      if !opponent.team[opponent.active].alive {
        var left := opponent.AnyAlive();
        if left {
          outcome := Fainted(dmg);
        } else {
          outcome := Defeated(dmg);
        }
      } else {
        outcome := Damaged(dmg);
      }
  }

  /** Turn number `turn` of `actor`, whose active combatant is alive, against
      `opponent`, in place: ask `mine` for the action, take the turn, and
      after a faint with teammates left have `theirs` name the replacement.
      It does to the two sides exactly what `Act` says. */
  method ActAndReplace(actor: Side, opponent: Side, mine: Controller, theirs: Controller, turn: nat, r: int)
    returns (action: Action, outcome: TurnOutcome)
    requires actor != opponent && actor.team != opponent.team
    requires actor.Valid() && opponent.Valid() && actor.Ready() && opponent.Ready()
    requires Honest(mine) && Honest(theirs) && 217 <= r <= 255
    modifies actor, opponent, opponent.team
    ensures actor.Valid() && opponent.Valid()
    ensures TurnResult(actor.State(), opponent.State(), action, outcome)
              == Act(old(actor.State()), old(opponent.State()), mine, theirs, turn, r)
  {
    action := mine.choose(turn, actor.team[..], actor.active, opponent.team[opponent.active]);
    outcome := TakeTurn(actor, opponent, action, r);
    if outcome.Fainted? {
      var t := theirs.replace(turn, opponent.team[..]);
      opponent.Select(t);
    }
  }

  /** A battle between two sides (the loop of origem.c main, lines 206-301). */
  class Battle {
    const side1: Side
    const side2: Side

    /** Both sides as a value. */
    function State(): Snapshot
      reads this, side1, side2, side1.team, side2.team
    {
      Snapshot(side1.State(), side2.State())
    }

    ghost predicate Valid()
      reads this, side1, side2, side1.team, side2.team
    {
      side1 != side2 && side1.team != side2.team && side1.Valid() && side2.Valid()
    }

    /** Both active combatants are alive, as at the start of every round. */
    ghost predicate Ready()
      reads this, side1, side2, side1.team, side2.team
    {
      Valid() && side1.Ready() && side2.Ready()
    }

    /** Both teams from the roster table, with the starting slots the players
        chose. */
    constructor (team1: seq<Combatant>, team2: seq<Combatant>, start1: int, start2: int)
      requires |team1| == MaxPkm && |team2| == MaxPkm
      requires 1 <= start1 <= MaxPkm && 1 <= start2 <= MaxPkm
      requires forall i :: 0 <= i < MaxPkm ==> Sound(team1[i]) && team1[i].alive
      requires forall i :: 0 <= i < MaxPkm ==> Sound(team2[i]) && team2[i].alive
      ensures Ready()
      ensures State() == Snapshot(SideState(team1, start1 - 1), SideState(team2, start2 - 1))
      ensures fresh(side1) && fresh(side2) && fresh(side1.team) && fresh(side2.team)
    {
      side1 := new Side(team1, start1);
      side2 := new Side(team2, start2);
    }

    /** Turn number `turn`, taken by player `p` with roll `rng(draws)`: it
        does to the battle exactly what `Turn` says, and moves to the next
        roll only after an attack. */
    method PlayTurn(p: Player, c1: Controller, c2: Controller, rng: nat -> int, draws: nat, turn: nat)
      returns (event: Event, draws': nat)
      requires Ready() && Honest(c1) && Honest(c2) && RollsInRange(rng)
      modifies side1, side2, side1.team, side2.team
      ensures Valid()
      ensures Played(State(), event) == Turn(old(State()), p, c1, c2, turn, rng(draws))
      ensures draws' == NextDraw(event, draws)
    {
      var action, outcome;
      if p == One {
        action, outcome := ActAndReplace(side1, side2, c1, c2, turn, rng(draws));
      } else {
        action, outcome := ActAndReplace(side2, side1, c2, c1, turn, rng(draws));
      }
      event := Event(p, action, outcome);
      draws' := NextDraw(event, draws);
    }

    /** One round, in place: it does to the battle exactly what `Round` says.
        `over` tells whether the battle has been decided. */
    method PlayRound(c1: Controller, c2: Controller, rng: nat -> int, draws: nat, turn: nat)
      returns (events: seq<Event>, draws': nat, over: bool)
      requires Ready() && Honest(c1) && Honest(c2) && RollsInRange(rng)
      modifies side1, side2, side1.team, side2.team
      ensures Valid() && (!over ==> Ready())
      ensures RoundResult(State(), events, draws') == Round(old(State()), c1, c2, rng, draws, turn)
      ensures over == Over(State())
    {
      ghost var s0 := State();
      var first := TurnOrder(side1.team[side1.active], side2.team[side2.active]);
      assert first == TurnOrder(s0.side1.team[s0.side1.active], s0.side2.team[s0.side2.active]);
      var e1;
      e1, draws' := PlayTurn(first, c1, c2, rng, draws, turn);
      events, draws', over := FinishRound(e1, c1, c2, rng, draws', turn + 1);
    }

    /** The rest of a round after the first turn `e1`, in place: it does to
        the battle exactly what `RoundRest` says. */
    method FinishRound(e1: Event, c1: Controller, c2: Controller, rng: nat -> int, draws: nat, turn: nat)
      returns (events: seq<Event>, draws': nat, over: bool)
      requires Valid() && Between(State()) && Honest(c1) && Honest(c2) && RollsInRange(rng)
      modifies side1, side2, side1.team, side2.team
      ensures Valid() && (!over ==> Ready())
      ensures RoundResult(State(), events, draws') == RoundRest(Played(old(State()), e1), c1, c2, rng, draws, turn)
      ensures over == Over(State())
    {
      var alive1 := side1.AnyAlive();
      var alive2 := side2.AnyAlive();
      if !alive1 || !alive2 {
        return [e1], draws, true;
      }
      assert side1.team[..][side1.active].alive && side2.team[..][side2.active].alive;
      var e2;
      e2, draws' := PlayTurn(Other(e1.actor), c1, c2, rng, draws, turn);
      alive1 := side1.AnyAlive();
      alive2 := side2.AnyAlive();
      events, over := [e1, e2], !alive1 || !alive2;
    }

    /** One more round of a traced battle: `PlayRound` from the last state of
        the trace, with the rolls and turns numbered on from it, then the
        check of both teams that the loop of origem.c main makes before the
        next round. The trace grows by that round and the log by its turns. */
    method NextRound(c1: Controller, c2: Controller, rng: nat -> int, draws: nat, log: seq<Event>,
                     ghost states: seq<Snapshot>, ghost rs: seq<RoundResult>, ghost turns: seq<nat>)
      returns (draws': nat, log': seq<Event>, alive1: bool, alive2: bool,
               ghost states': seq<Snapshot>, ghost rs': seq<RoundResult>, ghost turns': seq<nat>)
      requires Ready() && Honest(c1) && Honest(c2) && RollsInRange(rng)
      requires Trace(states, rs, turns, log, Rounds(c1, c2, rng)) && states[|rs|] == State()
      requires draws == DrawsBefore(rs, |rs|) && NoSkips(log)
      requires Worn(states[0].side1.team, side1.team[..]) && Worn(states[0].side2.team, side2.team[..])
      modifies side1, side2, side1.team, side2.team
      ensures Valid() && Between(State())
      ensures alive1 == HasAlive(side1.team[..]) && alive2 == HasAlive(side2.team[..])
      ensures alive1 && alive2 ==> Ready()
      ensures Trace(states', rs', turns', log', Rounds(c1, c2, rng)) && |rs'| == |rs| + 1
      ensures states'[0] == states[0] && states'[|rs'|] == State() && draws' == DrawsBefore(rs', |rs'|)
      ensures states' == states + [State()] && rs'[..|rs|] == rs && turns'[..|rs'|] == turns
      ensures |log| + 1 <= |log'| <= |log| + 2 && NoSkips(log')
      ensures Worn(states[0].side1.team, side1.team[..]) && Worn(states[0].side2.team, side2.team[..])
    {
      ghost var s0 := State();
      assert InPlay(s0) && s0 == states[|rs|];
      var events, over;
      events, draws', over := PlayRound(c1, c2, rng, draws, |log|);
      ghost var res := RoundResult(State(), events, draws');
      ghost var next: nat := |log| + |events|;
      states', rs', turns' := states + [State()], rs + [res], turns + [next];
      NoSkipsAppend(log, events);
      log' := log + events;
      assert rs'[..|rs|] == rs && turns'[..|rs'|] == turns;
      NextTrace(states, rs, turns, log, s0, draws, res, next, c1, c2, rng, states', rs', turns', log');
      WornTransitive(states[0].side1.team, s0.side1.team, side1.team[..]);
      WornTransitive(states[0].side2.team, s0.side2.team, side2.team[..]);
      ghost var after := State();
      alive1 := side1.AnyAlive();
      alive2 := side2.AnyAlive();
      assert State() == after;
    }

    /** Rounds until a team is defeated, for at most `maxRounds` rounds (the
        `while` loop of origem.c main, lines 209-298). The ghost `states`,
        `rs` and `turns` are the battle as played: round `k` is `Round` of
        `states[k]` started at turn `turns[k]`, its turns are the log from
        `turns[k]` on, and the battle ends in `states[rounds]`. `alive1` and
        `alive2` tell whether each team still has someone alive. */
    method PlayRounds(c1: Controller, c2: Controller, rng: nat -> int, maxRounds: nat)
      returns (log: seq<Event>, rounds: nat, alive1: bool, alive2: bool,
               ghost states: seq<Snapshot>, ghost rs: seq<RoundResult>, ghost turns: seq<nat>)
      requires Ready() && Honest(c1) && Honest(c2) && RollsInRange(rng)
      modifies side1, side2, side1.team, side2.team
      ensures Valid() && Between(State())
      ensures alive1 == HasAlive(side1.team[..]) && alive2 == HasAlive(side2.team[..])
      ensures alive1 && alive2 ==> rounds == maxRounds && Ready()
      ensures Trace(states, rs, turns, log, Rounds(c1, c2, rng)) && |rs| == rounds <= maxRounds
      ensures states[0] == old(State()) && states[rounds] == State()
      ensures rounds <= |log| <= 2 * rounds
      ensures NoSkips(log)
      ensures Worn(old(side1.team[..]), side1.team[..]) && Worn(old(side2.team[..]), side2.team[..])
    {
      var draws := 0;
      rounds, log := 0, [];
      ghost var start := State();
      states, rs, turns := [start], [], [0];
      WornReflexive(start.side1.team);
      WornReflexive(start.side2.team);
      alive1 := side1.AnyAlive();
      alive2 := side2.AnyAlive();
      while rounds < maxRounds && alive1 && alive2
        invariant Valid() && Between(State()) && rounds <= maxRounds
        invariant alive1 == HasAlive(side1.team[..]) && alive2 == HasAlive(side2.team[..])
        invariant alive1 && alive2 ==> Ready()
        invariant Trace(states, rs, turns, log, Rounds(c1, c2, rng)) && |rs| == rounds
        invariant states[0] == start && states[rounds] == State() && draws == DrawsBefore(rs, rounds)
        invariant rounds <= |log| <= 2 * rounds && NoSkips(log)
        invariant Worn(start.side1.team, side1.team[..]) && Worn(start.side2.team, side2.team[..])
        decreases maxRounds - rounds
      {
        draws, log, alive1, alive2, states, rs, turns := NextRound(c1, c2, rng, draws, log, states, rs, turns);
        rounds := rounds + 1;
      }
    }

    /** The battle, then its announcement (origem.c main, lines 209-301):
        the rounds of `PlayRounds`, whose turns make up the log in order,
        and the result the final state gives. */
    method Run(c1: Controller, c2: Controller, rng: nat -> int, maxRounds: nat)
      returns (result: BattleResult, log: seq<Event>, rounds: nat,
               ghost states: seq<Snapshot>, ghost rs: seq<RoundResult>, ghost turns: seq<nat>)
      requires Ready() && Honest(c1) && Honest(c2) && RollsInRange(rng)
      modifies side1, side2, side1.team, side2.team
      ensures Valid() && Between(State())
      ensures Trace(states, rs, turns, log, Rounds(c1, c2, rng)) && |rs| == rounds <= maxRounds
      ensures log == Events(rs)
      ensures states[0] == old(State()) && states[rounds] == State()
      ensures result == Result(State())
      ensures result == Winner(One) <==> HasAlive(side1.team[..]) && !HasAlive(side2.team[..])
      ensures result == Winner(Two) <==> HasAlive(side2.team[..]) && !HasAlive(side1.team[..])
      ensures result == Unfinished ==> rounds == maxRounds && Ready()
      ensures rounds <= |log| <= 2 * rounds
      ensures NoSkips(log)
      ensures Worn(old(side1.team[..]), side1.team[..]) && Worn(old(side2.team[..]), side2.team[..])
    {
      var alive1, alive2;
      log, rounds, alive1, alive2, states, rs, turns := PlayRounds(c1, c2, rng, maxRounds);
      TraceLog(states, rs, turns, log, Rounds(c1, c2, rng));
      if alive1 && alive2 {
        result := Unfinished;
      } else if alive1 {
        result := Winner(One);
      } else {
        result := Winner(Two);
      }
    }
  }
}
