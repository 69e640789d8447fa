# Two-player monster battle: stat/damage engine and turn controller

This project models `origem.c`, a two-player console battle game in the style of the
first-generation Pokémon games, and proves properties of the model in Dafny.

- `engine.dfy` (module `Engine`) is the stat and damage engine, written as pure functions.
  - Stats are derived at the fixed level 50.
  - The type chart covers the four types Fire, Water, Grass and Normal.
  - The same-type attack bonus (STAB) applies when the move's type is the user's type.
  - The damage formula truncates at every integer division, like C. Its random roll `r` is a parameter.
- `turns.dfy` (module `TurnController`) is the turn controller, in two layers.
  - The battle as values: `Resolve` is one turn of either player, and `Act` adds the controller's choice and the forced replacement after a faint. `Turn` is one turn on a two-sided `Snapshot`, `Round` is one pass of the two-turn `for` loop (its first turn, then `RoundRest`), and `Result` is the announcement at the end.
  - The battle in place, which is the battle loop of `main` written imperatively. A `Side` holds a player's team and its active index. The team is an `array<Combatant>` of three records, like C's `Pokemon team[3]`. A `Battle` holds the two sides.
  - Each method does to the arrays and indices exactly what the matching function says, stated as an equation on the whole new state: `TakeTurn` is `Resolve`, `ActAndReplace` is `Act`, `Battle.PlayTurn` is `Turn`, `Battle.PlayRound` is `Round` and `Battle.FinishRound` is `RoundRest`.
  - `TakeTurn(actor, opponent, …)` is one method for both players. It replaces the two copied player branches of the C loop.
  - `Battle.PlayRounds` is the outer `while` loop, one `Battle.NextRound` per pass, and `Battle.Run` adds the win detection.
  - Both also return the battle as played, as ghost sequences: the states before each round and after the last, the rounds (`RoundResult`s), and the number of turns taken before each round. `Trace` states that round `k` is the round function applied to state `k`, with the rolls numbered on from round `k - 1` and the turns from the log so far; that it leaves state `k + 1`; and that its turns are the matching slice of the log. For the battle that function is `Rounds(c1, c2, rng)`, which is `Round` from every state at the start of a round (`TraceRound`). `TraceLog` proves that the log is the turns of the rounds in order.

Inputs are values passed in. Nothing is read from a console.
- A player is a `Controller`. It holds one function that picks the turn's action and one that picks a replacement slot.
  - Besides what the console shows, each function receives the number of the turn, counted from 0 over the whole battle. A player can therefore answer differently at different turns in the same position, as a person at the console can.
  - `Honest` states that both functions only return validated answers. An action is a move 1..4, or a switch to a slot 1..3 whose member is alive. A replacement is a slot with a member that is alive.
- Random rolls come from a function `nat -> int` whose values lie in 217..255. Roll number `k` is used by the `k`-th attack of the battle, since only an attack draws one.

The damage multipliers are exact fractions (`Ratio`): 3/2 or 1 for STAB, and 2, 1/2 or 1 for type effectiveness.
Damage is `max(1, trunc(base * stab * eff * r / 255))`.

Two behaviours of the program the model keeps:
- **Replacement timing.** A fainted active combatant is replaced at once, inside the attacker's turn (`origem.c:247-253`, `origem.c:281-287`). The replacement then takes its own player's turn in the same round, if that turn is still to come.
  - The check that skips a turn whose active combatant has fainted (`origem.c:224`, `origem.c:260`) is modelled in `Resolve` and `TakeTurn`.
  - `Turn` and `Round` prove that this check never fires, and `Battle.Run` that no turn in its log is skipped.
- **Both teams defeated.** This case needs no tie-break. `Turn` and `Round` prove that at most one team is ever fully defeated. The winner is player 1 exactly when team 1 still has a member alive, as on `origem.c:300-301`.

## Model

| member | source | states |
|---|---|---|
| Engine.Quot | origem.c:89-91 | C integer division by a positive divisor: the remainder is smaller than the divisor and has the dividend's sign (truncation toward zero) |
| Engine.QuotMonotone | origem.c:90-91 | truncating division never decreases when the dividend grows |
| Engine.QuotCancel | origem.c:97-100 | a common positive factor of dividend and divisor cancels under truncating division |
| Engine.CalcStat | origem.c:47-50 | at level 50, `((base*2)*50)/100 + 5` equals base + 5 for every base |
| Engine.CalcHp | origem.c:51-54 | at level 50, `((base*2)*50)/100 + 50 + 10` equals base + 60 for every base |
| Engine.StatsMonotone | origem.c:47-54 | on non-negative bases both derived stats are positive and monotone non-decreasing |
| Engine.InitPokemon | origem.c:120-136 | a fresh combatant keeps its base stats, has max health base+60 and full health, other stats base+5, and is alive; with non-negative bases and four moves it satisfies the combatant invariant |
| Engine.TypeEffectiveness | origem.c:57-65 | exactly 2 for fire→grass, water→fire, grass→water; exactly 1/2 for their inverses; exactly 1 for all other pairs, including same type and anything involving Normal |
| Engine.EffectivenessInverse | origem.c:57-65 | a pairing is super effective exactly when its reverse is not very effective |
| Engine.Stab | origem.c:68-70 | 3/2 exactly when the move type equals the user type, otherwise 1 |
| Engine.AttackStat | origem.c:80-87 | the attacking stat is the attacker's attack for a physical move and its special otherwise; it is positive for a sound attacker with positive attack |
| Engine.DefenseStat | origem.c:80-87 | the defending stat is the defender's defense for a physical move and its special otherwise; it is positive for every sound defender, so the division on line 90 is defined |
| Engine.LevelTerm | origem.c:89 | `(2*50)/5 + 2` is 22 |
| Engine.BaseDamage | origem.c:89-91 | the unmodified damage is at least 2 for non-negative power and attacking stat |
| Engine.ApplyModifier | origem.c:93-103 | the scaled and truncated damage is clamped to at least 1 |
| Engine.CalculateDamage | origem.c:76-104 | damage is at least 1 for every roll in 217..255, given a positive defending stat |
| Engine.DamageAtTopRoll | origem.c:94-100 | with r = 255 the damage is `max(1, trunc(base * stab * eff))` with base `((22*power*A)/D)/50 + 2` |
| Engine.DamageMonotoneInRoll | origem.c:96-100 | a higher roll never deals less damage |
| Engine.DamageAtMostThreeTimesBase | origem.c:94-100 | damage never exceeds three times the base damage (or 1) |
| Engine.PhysicalUsesAttackAndDefense | origem.c:80-83 | for the move named "Tackle", damage depends only on the attacker's attack and type and the defender's defense and type |
| Engine.SpecialUsesSpecialStats | origem.c:84-87 | for every other move, damage depends only on the two special stats and the two types |
| Engine.FlamethrowerOnVenusaur | origem.c:142-157 | Charizard's Flamethrower (95, Fire) on Venusaur with r = 255 deals 111 (base 37, times 3/2, times 2) |
| Engine.FlamethrowerOnCharizard | origem.c:142-157 | the same move on another Charizard, neutral type and STAB, r = 255: base 43, damage 64 |
| Engine.TackleOnBlastoise | origem.c:142-163 | Charizard's Tackle on Blastoise uses attack 89 against defense 105: damage 15 at r = 255, and 12 at r = 217 |
| TurnController.TurnOrder | origem.c:216-218 | player 1 moves first exactly when its active combatant's speed is at least player 2's, so ties go to player 1 |
| TurnController.Other | origem.c:221 | the player who moves second is the one who did not move first |
| TurnController.Hit | origem.c:241-242 | after a hit, health is reduced by the damage or clamped at 0, never increases and never goes negative; the alive flag is cleared exactly when the damage reaches the health; nothing else changes; the combatant invariant is kept |
| TurnController.HitKnocksOut | origem.c:276-277 | a hit of at least 1 lowers the health of a living combatant and knocks it out exactly when the damage is at least its health |
| TurnController.HitAll | origem.c:276-277 | over a series of hits of at least 1, health never rises and never goes negative, nothing but health and the alive flag changes, the combatant invariant is kept, and a fainted combatant stays fainted |
| TurnController.HitAllTotal | origem.c:241-242 | after a series of hits, health is the starting health minus the total damage, or 0; the combatant has fainted exactly when the total damage reached its starting health |
| TurnController.Side.constructor | origem.c:206-207 | a team starts with the roster table's members and the active index the player chose (slot 1..3) |
| TurnController.Side.AnyAlive | origem.c:195-198 | true exactly when some member is alive; false exactly when every member has fainted |
| TurnController.Side.Select | origem.c:236-237 | the active index becomes the chosen slot, which must hold a member that is alive |
| TurnController.Side.TakeHit | origem.c:241-242 | only the active member changes, and it becomes `Hit(old member, damage)` |
| TurnController.WornTransitive | origem.c:241-242 | wear composes: if one state of a team is a worn-down version of another (same members in the same slots, health never higher, fainted members stay fainted), and a third is a worn-down version of the second, then the third is a worn-down version of the first |
| TurnController.Resolve | origem.c:223-258 | one turn of either player, as values: skipped, leaving both sides as they were, exactly when the actor's active combatant has fainted; otherwise a switch exactly when the action is a switch, moving only the actor's active index to the chosen slot; an attack leaves the actor as it was, deals exactly `CalculateDamage` with the chosen move and replaces only the opponent's active member by `Hit` of it; a faint with teammates left, a faint of the last member and plain damage are told apart; the opponent's team is only worn down |
| TurnController.Act | origem.c:223-258 | a turn of a player whose active combatant is alive: the action is the controller's choice for this turn number and position; the turn is never skipped; after a faint with teammates left the opponent's active index becomes the opponent's replacement, otherwise it stays; the opponent is defeated exactly when nobody on its team is alive, and otherwise its active combatant is alive; the actor's team is unchanged and the opponent's is only worn down |
| TurnController.TakeTurn | origem.c:223-258 | the two sides and the outcome after the turn, in place, are exactly `Resolve` of the two sides before it |
| TurnController.ActAndReplace | origem.c:244-256 | the action chosen, the outcome and the two sides after the turn, in place, are exactly `Act` of the two sides before it; the controller's answers are used as given |
| TurnController.Turn | origem.c:220-292 | the turn of player `p` is taken by `p` on its own side, leaves `p`'s team unchanged, is never skipped, and defeats a team exactly when afterwards some team has nobody alive; afterwards at least one team has someone alive, and unless the battle is decided both active combatants are alive; both teams are only worn down |
| TurnController.Round | origem.c:215-297 | the faster player (player 1 on a tie) takes the first turn and the other player the second; the round has one turn exactly when the first turn defeated a team; no turn is skipped; the battle is decided after the round exactly when its last turn defeated a team; each turn draws at most one roll; both teams are only worn down |
| TurnController.RoundRest | origem.c:295-296 | after the first turn, the round stops exactly when some team has nobody alive; otherwise the other player takes the second turn; at most one roll is drawn; both teams are only worn down |
| TurnController.Result | origem.c:300-301 | player 1 wins exactly when its team has someone alive and the other has nobody; player 2 wins exactly when team 1 has nobody alive; the battle is unfinished exactly when both teams have someone alive |
| TurnController.Battle.constructor | origem.c:202-207 | the battle starts with both given teams in place, each with the active index its player chose, and both starting combatants alive |
| TurnController.Battle.PlayTurn | origem.c:220-222 | the battle state and the event after the turn are exactly `Turn` of the state before it, with the roll at index `draws`; the roll index moves on only after an attack |
| TurnController.Battle.PlayRound | origem.c:215-297 | the battle state, the events and the roll index after the round are exactly `Round` of the state before it; `over` tells whether some team has nobody alive; if not, both active combatants are alive |
| TurnController.Battle.FinishRound | origem.c:295-296 | the battle state, the events and the roll index after the rest of the round are exactly `RoundRest` of the state after the first turn |
| TurnController.RoundsInPlay | origem.c:209-222 | from a state where both active combatants are alive, the battle's round function is exactly `Round` |
| TurnController.TraceRound | origem.c:209-298 | in a trace of the battle, before round `k` both active combatants are alive; round `k` is exactly `Round` of the state before it, with the rolls numbered on from the round before and the turn count before it; it leaves the next state; and its turns are the slice of the log between the turn counts before and after it |
| TurnController.TraceLog | origem.c:209-298 | the log of a trace is the turns of its rounds, in order |
| TurnController.LogPrefix | origem.c:209-298 | the log up to the turn count before round `n` is the turns of the first `n` rounds |
| TurnController.TraceExtend | origem.c:209-298 | a trace extended by a round that is `RoundAt` its end is again a trace |
| TurnController.EarlierRounds | origem.c:209-298 | extending a trace by one round keeps every earlier round in place |
| TurnController.EarlierRoundAt | origem.c:209-298 | extending a trace by one round keeps round `k` in place |
| TurnController.LastRoundAt | origem.c:209-298 | a round played from the last state of a trace, with the next roll and the turns so far, is `RoundAt` the end of the extended trace |
| TurnController.NextTrace | origem.c:209-298 | a trace of the battle extended by `Round` of its last state is again a trace of the battle |
| TurnController.Battle.NextRound | origem.c:209-298 | one more round, in place: the old trace is a prefix of the new one, which has exactly one more round, is a trace of the battle and ends in the state after the round; the log grows by that round's one or two turns, none of them skipped; the two flags tell whether each team has someone alive, and if both do, both active combatants are alive; both teams are only worn down since the start |
| TurnController.Battle.PlayRounds | origem.c:209-298 | after the loop each flag tells whether its team has someone alive, and if both do, the round bound ran out and both active combatants are alive; at most `maxRounds` rounds are played; `states`, `rs` and `turns` are a trace of the battle from the state before the loop to the state after it with `rounds` rounds; the log has between `rounds` and `2 * rounds` turns, none skipped; both teams are only worn down |
| TurnController.Battle.Run | origem.c:209-301 | the battle as played is a trace from the starting state to the final one with `rounds` rounds, and the log is the turns of those rounds in order; the result is `Result` of the final state: player 1 wins exactly when team 1 has someone alive and team 2 does not, player 2 wins in the mirror case, and the battle is unfinished only when the round bound ran out with both active combatants alive; no turn in the log is skipped, and both teams are only worn down over the whole battle |

## Left out

- Console I/O is not modelled. This covers `print_moves`, `print_pkm_status`, every `printf` and the `scanf` re-prompt loops (`origem.c:107-117`, `origem.c:183-191`, `origem.c:228`, `origem.c:236`, `origem.c:252`, `origem.c:286`). Choices come in already validated, through `Controller` and `Honest`.
- A person at the console may base a choice on anything shown so far. A `Controller` is given the turn number, its own team, its active index and the opposing active combatant, but not the log of earlier turns or the opposing team. Any fixed script of answers, one per turn, can still be written as a `Controller`.
- `srand(time(NULL))` and `rand()` are not modelled. Rolls come from a function whose values lie in 217..255. The formula `rand() % 39 + 217` falls in that range.
- `create_teams` is not modelled as a whole, because it is static configuration. The entries for Charizard, Blastoise and Venusaur appear only as constants for the concrete damage lemmas. Player 2's team is a copy of player 1's, and a caller of `Battle.constructor` passes both teams.
- `strcpy` of names is not modelled. A name is a `string`, and the only string test is the comparison with "Tackle".
- The `alive` field is a `bool`, not an `int` 0/1.
- Engine.CalculateDamage: computes the modifier as an exact fraction. C computes `stab * effectiveness * (r / 255.0)` in double precision. Because `r / 255.0` is not exact, the C truncation can be one less than the exact value when the exact product is a whole number.
- Engine.CalcStat: does not model 32-bit `int` overflow, because every base stat in the roster table is far below the overflow bound. The same holds for `CalcHp`, for the product `22 * power * A` in `BaseDamage`, and for `hp -= dmg`.
- Engine.InitPokemon: takes the moves as a parameter. `init_pokemon` leaves them to `create_teams`, which fills them in right after initialisation.
- TurnController.Battle.Run: runs at most `maxRounds` rounds and returns `Unfinished` when they run out. The C loop has no bound, and players who keep switching never end it.
- TurnController.Battle.PlayRounds: is bounded by `maxRounds` in the same way.
