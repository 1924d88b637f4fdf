/** `rollout_action_matrix`: which actions a rollout state allows, turned round from which states an action accepts. */
module RolloutMatrix {
  import opened Prelude

  /** An action with the state symbols its writer accepts. */
  datatype Transition = Transition(action: string, states: seq<string>)

  /** One accepted state of one action, by symbol. */
  datatype Move = Move(action: string, symbol: string)

  /** Symbols as values: `states` inverts the registry's symbol table, `actions` names the action symbols. */
  datatype Symbols = Symbols(states: map<string, string>, actions: map<string, string>)

  // ---- What the matrix should say ----

  function MovesOf(action: string, states: seq<string>): seq<Move> {
    seq(|states|, i requires 0 <= i < |states| => Move(action, states[i]))
  }

  function Moves(transitions: seq<Transition>): seq<Move> {
    if transitions == [] then []
    else
      var last := transitions[|transitions| - 1];
      Moves(transitions[..|transitions| - 1]) + MovesOf(last.action, last.states)
  }

  predicate IsKnown(sym: Symbols, values: set<string>, m: Move) {
    m.action in sym.actions && m.symbol in sym.states && sym.states[m.symbol] in values
  }

  predicate AreKnown(sym: Symbols, values: set<string>, moves: seq<Move>) {
    forall i :: 0 <= i < |moves| ==> IsKnown(sym, values, moves[i])
  }

  /** The actions of one state, in the order of the moves. */
  function Row(sym: Symbols, values: set<string>, moves: seq<Move>, value: string): seq<string>
    requires AreKnown(sym, values, moves)
  {
    if moves == [] then []
    else
      var last := moves[|moves| - 1];
      Row(sym, values, moves[..|moves| - 1], value)
      + if sym.states[last.symbol] == value then [sym.actions[last.action]] else []
  }

  function Matrix(sym: Symbols, values: set<string>, moves: seq<Move>): map<string, seq<string>>
    requires AreKnown(sym, values, moves)
  {
    map value | value in values :: Row(sym, values, moves, value)
  }

  function ActionsOf(transitions: seq<Transition>): set<string> {
    set i | 0 <= i < |transitions| :: transitions[i].action
  }

  // ---- The loops ----

  lemma RowExtends(sym: Symbols, values: set<string>, moves: seq<Move>, m: Move)
    requires AreKnown(sym, values, moves) && IsKnown(sym, values, m)
    ensures AreKnown(sym, values, moves + [m])
    ensures
      var value := sym.states[m.symbol];
      var before := Matrix(sym, values, moves);
      Matrix(sym, values, moves + [m]) == before[value := before[value] + [sym.actions[m.action]]]
  {
    var longer, value := moves + [m], sym.states[m.symbol];
    var before := Matrix(sym, values, moves);
    assert longer[..|moves|] == moves && longer[|moves|] == m;
    forall other | other in values
      ensures Row(sym, values, longer, other) ==
        if other == value then before[value] + [sym.actions[m.action]] else before[other]
    {
      assert before[other] + [] == before[other];
    }
  }

  /** One action: append it to the row of every state it accepts. An unknown symbol ends the generator. */
  method AddAction(
    sym: Symbols, values: set<string>, t: Transition, ghost done: seq<Move>, matrix: map<string, seq<string>>)
    returns (ok: bool, after: map<string, seq<string>>)
    requires AreKnown(sym, values, done) && matrix == Matrix(sym, values, done) && t.action in sym.actions
    ensures ok <==> AreKnown(sym, values, done + MovesOf(t.action, t.states))
    ensures ok ==> after == Matrix(sym, values, done + MovesOf(t.action, t.states))
  {
    after := matrix;
    assert done + MovesOf(t.action, t.states[..0]) == done;
    for i := 0 to |t.states|
      invariant AreKnown(sym, values, done + MovesOf(t.action, t.states[..i]))
      invariant after == Matrix(sym, values, done + MovesOf(t.action, t.states[..i]))
    {
      ghost var m := Move(t.action, t.states[i]);
      ghost var before := done + MovesOf(t.action, t.states[..i]);
      assert done + MovesOf(t.action, t.states[..i + 1]) == before + [m];
      if t.states[i] !in sym.states || sym.states[t.states[i]] !in after {
        assert (done + MovesOf(t.action, t.states))[|done| + i] == m;
        return false, after;
      }
      RowExtends(sym, values, before, m);
      var value := sym.states[t.states[i]];
      after := after[value := after[value] + [sym.actions[t.action]]];
    }
    assert t.states[..|t.states|] == t.states;
    ok := true;
  }

  /** Raises unless the actions with a transition are exactly the declared ones and every symbol is known. */
  method BuildMatrix(sym: Symbols, values: set<string>, transitions: seq<Transition>)
    returns (r: Option<map<string, seq<string>>>)
    ensures r.Some? <==> ActionsOf(transitions) == sym.actions.Keys && AreKnown(sym, values, Moves(transitions))
    ensures r.Some? ==> r.value == Matrix(sym, values, Moves(transitions))
  {
    if ActionsOf(transitions) != sym.actions.Keys {
      return None;
    }
    var matrix := map value | value in values :: [];
    for i := 0 to |transitions|
      invariant AreKnown(sym, values, Moves(transitions[..i])) && matrix == Matrix(sym, values, Moves(transitions[..i]))
    {
      assert transitions[..i + 1][..i] == transitions[..i];
      assert transitions[i].action in ActionsOf(transitions);
      var ok, after := AddAction(sym, values, transitions[i], Moves(transitions[..i]), matrix);
      if !ok {
        MovesGrow(transitions, i + 1);
        return None;
      }
      matrix := after;
    }
    assert transitions[..|transitions|] == transitions;
    r := Some(matrix);
  }

  lemma {:induction false} MovesGrow(transitions: seq<Transition>, n: nat)
    requires n <= |transitions|
    ensures Moves(transitions[..n]) <= Moves(transitions)
    decreases |transitions| - n
  {
    if n < |transitions| {
      assert transitions[..n + 1][..n] == transitions[..n];
      MovesGrow(transitions, n + 1);
    } else {
      assert transitions[..n] == transitions;
    }
  }

  // ---- The transpose ----

  predicate AreInjective(sym: Symbols) {
    && (forall a, b :: a in sym.states && b in sym.states && sym.states[a] == sym.states[b] ==> a == b)
    && (forall a, b :: a in sym.actions && b in sym.actions && sym.actions[a] == sym.actions[b] ==> a == b)
  }

  /**
   * With injective symbols the matrix is the exact transpose: an action stands in the row of a state exactly as often
   * as the state stands in the list of the action.
   */
  lemma {:induction false} MatrixIsTranspose(sym: Symbols, values: set<string>, moves: seq<Move>, m: Move)
    requires AreKnown(sym, values, moves) && AreInjective(sym) && m.action in sym.actions && m.symbol in sym.states
    ensures multiset(Row(sym, values, moves, sym.states[m.symbol]))[sym.actions[m.action]] == multiset(moves)[m]
  {
    if moves != [] {
      var front, last := moves[..|moves| - 1], moves[|moves| - 1];
      MatrixIsTranspose(sym, values, front, m);
      assert moves == front + [last];
      assert IsKnown(sym, values, last);
    }
  }

  lemma {:induction false} MovesOfCount(action: string, states: seq<string>, m: Move)
    ensures multiset(MovesOf(action, states))[m] == if m.action == action then multiset(states)[m.symbol] else 0
  {
    if states != [] {
      var front, last := states[..|states| - 1], states[|states| - 1];
      MovesOfCount(action, front, m);
      assert MovesOf(action, states) == MovesOf(action, front) + [Move(action, last)];
      assert states == front + [last];
    }
  }

  predicate ActionsDiffer(transitions: seq<Transition>) {
    forall i, j :: 0 <= i < j < |transitions| ==> transitions[i].action != transitions[j].action
  }

  lemma {:induction false} ForeignActionHasNoMoves(transitions: seq<Transition>, m: Move)
    requires forall i :: 0 <= i < |transitions| ==> transitions[i].action != m.action
    ensures multiset(Moves(transitions))[m] == 0
  {
    if transitions != [] {
      var n := |transitions| - 1;
      ForeignActionHasNoMoves(transitions[..n], m);
      MovesOfCount(transitions[n].action, transitions[n].states, m);
    }
  }

  lemma {:induction false} MovesCountStates(transitions: seq<Transition>, k: nat, symbol: string)
    requires ActionsDiffer(transitions) && k < |transitions|
    ensures multiset(Moves(transitions))[Move(transitions[k].action, symbol)] == multiset(transitions[k].states)[symbol]
    decreases |transitions|
  {
    var n := |transitions| - 1;
    var m := Move(transitions[k].action, symbol);
    MovesOfCount(transitions[n].action, transitions[n].states, m);
    if k < n {
      MovesCountStates(transitions[..n], k, symbol);
    } else {
      ForeignActionHasNoMoves(transitions[..n], m);
    }
  }

  /** Read from the transitions themselves: the row of a state counts each action as its transition lists the state. */
  lemma RowsCountStates(sym: Symbols, values: set<string>, transitions: seq<Transition>, k: nat, symbol: string)
    requires AreKnown(sym, values, Moves(transitions)) && AreInjective(sym) && ActionsDiffer(transitions)
    requires k < |transitions| && transitions[k].action in sym.actions
    requires symbol in sym.states && sym.states[symbol] in values
    ensures multiset(Matrix(sym, values, Moves(transitions))[sym.states[symbol]])[sym.actions[transitions[k].action]] ==
      multiset(transitions[k].states)[symbol]
  {
    MatrixIsTranspose(sym, values, Moves(transitions), Move(transitions[k].action, symbol));
    MovesCountStates(transitions, k, symbol);
  }
}
