/**
 * The per-snapshot game-state handler.
 *
 * The game client pushes a game state ("snapshot") to the program many times a
 * second. For each one the handler remembers that it has seen a first state,
 * ignores snapshots taken outside a match, asks for the hero's voice line when
 * a new match starts, refills the recent-health buffer when the hero dies, and
 * remembers the snapshot for the next comparison.
 *
 * `Step` and `Run` specify the handler on values; the class `Program` holds the
 * same state in fields and an array; `OnNewGameState` is proved to follow
 * `Step`, and `Start` and `FillArray` are specified by `Filled`. Playing a sound is outside the model: the handler returns the names
 * of the sound resources it asks to play, and `hasResource` says whether a
 * resource of a given name exists.
 */
module GameStateHandler {
  import opened Wrappers

  /** The match id a snapshot reports when no match is going on. */
  const NoMatch: int := -1

  /** Number of slots of the recent-health buffer. */
  const HealthSlots: nat := 25

  /** The only value the program ever writes into the recent-health buffer (100%). */
  const FullHealth: real := 100.0

  /** The parts of a pushed game state the handler reads. */
  datatype GameState = GameState(matchId: int, heroName: string, isAlive: bool)

  /** The handler's state: the first-state flag, the previous snapshot and the health buffer. */
  datatype HandlerState = HandlerState(firstState: bool, previous: Option<GameState>, recentHealth: seq<real>)

  /** What handling one or more snapshots leaves behind: the new state and the sounds asked for. */
  datatype Reaction = Reaction(next: HandlerState, sounds: seq<string>)

  /** A buffer of `n` slots that all hold `v`. */
  function Filled(n: nat, v: real): (s: seq<real>)
    ensures |s| == n
    ensures forall i :: 0 <= i < n ==> s[i] == v
  {
    seq(n, _ => v)
  }

  /** The state the program starts with: no snapshot seen yet and a zeroed buffer. */
  function Initial(): HandlerState
  {
    HandlerState(true, None, Filled(HealthSlots, 0.0))
  }

  /** The buffer holds 25 slots, each at 100%. */
  predicate HealthFull(h: HandlerState) {
    h.recentHealth == Filled(HealthSlots, FullHealth)
  }

  /** The snapshot opens a match the handler has not seen: nothing before it, or another match id. */
  predicate NewMatch(previous: Option<GameState>, gs: GameState) {
    previous.None? || gs.matchId != previous.value.matchId
  }

  /** The hero was alive in the previous snapshot and is dead in this one. */
  predicate HeroDied(previous: Option<GameState>, gs: GameState) {
    previous.Some? && previous.value.isAlive && !gs.isAlive
  }

  /** Handling one snapshot `gs` in state `h`. */
  function Step(h: HandlerState, gs: GameState, hasResource: string -> bool): (r: Reaction)
    ensures !r.next.firstState
    ensures gs.matchId == NoMatch ==>
      r.sounds == [] && r.next.previous == h.previous && r.next.recentHealth == h.recentHealth
    ensures gs.matchId != NoMatch ==> r.next.previous == Some(gs)
    ensures r.sounds == [] || r.sounds == [gs.heroName]
    ensures r.sounds == [gs.heroName] <==>
      gs.matchId != NoMatch && NewMatch(h.previous, gs) && hasResource(gs.heroName)
    ensures gs.matchId != NoMatch && HeroDied(h.previous, gs) ==>
      r.next.recentHealth == Filled(|h.recentHealth|, FullHealth)
    ensures !(gs.matchId != NoMatch && HeroDied(h.previous, gs)) ==>
      r.next.recentHealth == h.recentHealth
  {
    if gs.matchId == NoMatch then
      Reaction(h.(firstState := false), [])
    else
      var sounds := if NewMatch(h.previous, gs) && hasResource(gs.heroName) then [gs.heroName] else [];
      var health := if HeroDied(h.previous, gs) then Filled(|h.recentHealth|, FullHealth) else h.recentHealth;
      Reaction(HandlerState(false, Some(gs), health), sounds)
  }

  /**
   * Handling the snapshots `gss` one after another, as the listener delivers
   * them, collecting every sound asked for: at most one sound per snapshot, and
   * the buffer keeps its size.
   */
  function Run(h: HandlerState, gss: seq<GameState>, hasResource: string -> bool): (r: Reaction)
    ensures |r.sounds| <= |gss|
    ensures |r.next.recentHealth| == |h.recentHealth|
    decreases |gss|
  {
    if |gss| == 0 then Reaction(h, [])
    else
      var first := Step(h, gss[0], hasResource);
      var rest := Run(first.next, gss[1..], hasResource);
      Reaction(rest.next, first.sounds + rest.sounds)
  }

  /** The last snapshot of `gss` taken inside a match, or `fallback` when there is none. */
  function LastInMatch(gss: seq<GameState>, fallback: Option<GameState>): Option<GameState>
    decreases |gss|
  {
    if |gss| == 0 then fallback
    else if gss[|gss| - 1].matchId != NoMatch then Some(gss[|gss| - 1])
    else LastInMatch(gss[..|gss| - 1], fallback)
  }

  /** Handling one more snapshot after a run is a step from the run's state. */
  lemma {:induction false} RunSnoc(h: HandlerState, gss: seq<GameState>, gs: GameState, hasResource: string -> bool)
    ensures Run(h, gss + [gs], hasResource).next == Step(Run(h, gss, hasResource).next, gs, hasResource).next
    ensures Run(h, gss + [gs], hasResource).sounds
      == Run(h, gss, hasResource).sounds + Step(Run(h, gss, hasResource).next, gs, hasResource).sounds
    decreases |gss|
  {
    if |gss| == 0 {
      assert [] + [gs] == [gs];
      assert Run(Step(h, gs, hasResource).next, [], hasResource).next == Step(h, gs, hasResource).next;
    } else {
      var first := Step(h, gss[0], hasResource);
      assert (gss + [gs])[0] == gss[0];
      assert (gss + [gs])[1..] == gss[1..] + [gs];
      RunSnoc(first.next, gss[1..], gs, hasResource);
    }
  }

  /** After at least one snapshot the first-state flag is down, and once down it stays down. */
  lemma {:induction false} FirstStateStaysCleared(h: HandlerState, gss: seq<GameState>, hasResource: string -> bool)
    requires |gss| > 0 || !h.firstState
    ensures !Run(h, gss, hasResource).next.firstState
    decreases |gss|
  {
    if |gss| > 0 {
      FirstStateStaysCleared(Step(h, gss[0], hasResource).next, gss[1..], hasResource);
    }
  }

  /** The handler keeps a full buffer full: its only write fills every slot with 100%. */
  lemma {:induction false} HealthStaysFull(h: HandlerState, gss: seq<GameState>, hasResource: string -> bool)
    requires HealthFull(h)
    ensures HealthFull(Run(h, gss, hasResource).next)
    decreases |gss|
  {
    if |gss| > 0 {
      HealthStaysFull(Step(h, gss[0], hasResource).next, gss[1..], hasResource);
    }
  }

  /**
   * The remembered snapshot is the last one taken inside a match; snapshots
   * taken outside a match leave it as it was.
   */
  lemma {:induction false} PreviousIsLastInMatch(h: HandlerState, gss: seq<GameState>, hasResource: string -> bool)
    ensures Run(h, gss, hasResource).next.previous == LastInMatch(gss, h.previous)
    decreases |gss|
  {
    if |gss| > 0 {
      var init := gss[..|gss| - 1];
      var last := gss[|gss| - 1];
      assert init + [last] == gss;
      RunSnoc(h, init, last, hasResource);
      PreviousIsLastInMatch(h, init, hasResource);
    }
  }

  /**
   * While every snapshot belongs to the remembered match (or to no match), no
   * hero voice line is asked for again.
   */
  lemma {:induction false} NoRepeatWithinMatch(h: HandlerState, gss: seq<GameState>, hasResource: string -> bool)
    requires h.previous.Some?
    requires forall i :: 0 <= i < |gss| ==> gss[i].matchId in {h.previous.value.matchId, NoMatch}
    ensures Run(h, gss, hasResource).sounds == []
    decreases |gss|
  {
    if |gss| > 0 {
      var next := Step(h, gss[0], hasResource).next;
      assert next.previous.Some? && next.previous.value.matchId == h.previous.value.matchId;
      NoRepeatWithinMatch(next, gss[1..], hasResource);
    }
  }

  /** Every sound asked for is the voice line of the hero of one of the snapshots, and it exists. */
  lemma {:induction false} SoundsAreHeroLines(h: HandlerState, gss: seq<GameState>, hasResource: string -> bool)
    ensures forall s :: s in Run(h, gss, hasResource).sounds ==>
      hasResource(s) && exists i :: 0 <= i < |gss| && gss[i].heroName == s
    decreases |gss|
  {
    if |gss| > 0 {
      var first := Step(h, gss[0], hasResource);
      SoundsAreHeroLines(first.next, gss[1..], hasResource);
      forall s | s in Run(h, gss, hasResource).sounds
        ensures hasResource(s) && exists i :: 0 <= i < |gss| && gss[i].heroName == s
      {
        if s in first.sounds {
          assert gss[0].heroName == s;
        } else {
          assert s in Run(first.next, gss[1..], hasResource).sounds;
          var j :| 0 <= j < |gss[1..]| && gss[1..][j].heroName == s;
          assert gss[j + 1].heroName == s;
        }
      }
    }
  }

  /**
   * The program object: the fields the handler reads and writes. The health
   * buffer is a fixed array of 25 slots.
   */
  class Program {
    var firstState: bool
    var previousGameState: Option<GameState>
    const recentHealth: array<real>

    /** The buffer keeps the 25 slots it was created with. */
    ghost predicate Valid()
      reads this
    {
      recentHealth.Length == HealthSlots
    }

    /** The handler state the fields hold. */
    ghost function Model(): HandlerState
      reads this, recentHealth
    {
      HandlerState(firstState, previousGameState, recentHealth[..])
    }

    /** A fresh program: no snapshot seen yet, a zeroed buffer of 25 slots. */
    constructor ()
      ensures Valid() && fresh(recentHealth)
      ensures Model() == Initial()
    {
      firstState := true;
      previousGameState := None;
      recentHealth := new real[HealthSlots](_ => 0.0);
    }

    /** The part of start-up that touches the handler state: every buffer slot is set to 100%. */
    method Start()
      requires Valid()
      modifies recentHealth
      ensures Valid()
      ensures HealthFull(Model())
      ensures Model() == old(Model()).(recentHealth := Filled(recentHealth.Length, FullHealth))
    {
      FillArray(recentHealth, FullHealth);
    }

    /** Handles one pushed snapshot and returns the names of the sounds it asks to play. */
    method OnNewGameState(gameState: GameState, hasResource: string -> bool) returns (sounds: seq<string>)
      requires Valid()
      modifies this, recentHealth
      ensures Valid()
      ensures Model() == Step(old(Model()), gameState, hasResource).next
      ensures sounds == Step(old(Model()), gameState, hasResource).sounds
    {
      if firstState {
        firstState := false;
      }

      if gameState.matchId == NoMatch {
        return [];
      }

      sounds := [];
      if previousGameState.None? || gameState.matchId != previousGameState.value.matchId {
        if hasResource(gameState.heroName) {
          sounds := [gameState.heroName];
        }
      }

      if previousGameState.Some? && !gameState.isAlive && previousGameState.value.isAlive {
        FillArray(recentHealth, FullHealth);
      }

      previousGameState := Some(gameState);
    }

    /** Sets every slot of `buffer` to `value`. */
    method FillArray(buffer: array<real>, value: real)
      modifies buffer
      ensures forall i :: 0 <= i < buffer.Length ==> buffer[i] == value
      ensures buffer[..] == Filled(buffer.Length, value)
    {
      for i := 0 to buffer.Length
        invariant forall k :: 0 <= k < i ==> buffer[k] == value
        invariant forall k :: i <= k < buffer.Length ==> buffer[k] == old(buffer[k])
      {
        buffer[i] := value;
      }
    }
  }
}
