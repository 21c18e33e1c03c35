/**
 * The named actions of InputMap.cs.  An action name is bound to a list of
 * keys and mouse buttons; the action is down when any of them is down.
 *
 * The keyboard and mouse state the source reads through its context are
 * inputs: the set of keys and the set of mouse buttons held down at the
 * moment of the query.  The message written to standard error for an
 * unknown action is recorded in a ghost log.
 */
module Input {

  /** InputMap.cs:3-15: one binding, a key or a mouse button. */
  datatype InputMapping = Key(keyId: int) | MouseButton(buttonId: int)

  /** The device state at the moment of a query. */
  datatype DeviceState = DeviceState(keysDown: set<int>, buttonsDown: set<int>)

  /** InputMap.cs:63-73: whether one binding is held down. */
  predicate Pressed(m: InputMapping, state: DeviceState)
  {
    match m
    case Key(k) => k in state.keysDown
    case MouseButton(b) => b in state.buttonsDown
  }

  /** Whether any binding of the list is held down, checked from the front. */
  predicate AnyPressed(inputs: seq<InputMapping>, state: DeviceState)
  {
    if inputs == [] then false else Pressed(inputs[0], state) || AnyPressed(inputs[1..], state)
  }

  /** AnyPressed holds exactly when some binding of the list is pressed. */
  lemma {:induction false} AnyPressedIff(inputs: seq<InputMapping>, state: DeviceState)
    ensures AnyPressed(inputs, state) <==> exists m :: m in inputs && Pressed(m, state)
  {
    if inputs != [] {
      AnyPressedIff(inputs[1..], state);
      assert inputs == [inputs[0]] + inputs[1..];
    }
  }

  /** Binding one more input makes the action down exactly when it was down before or the new input is. */
  lemma AnyPressedAppend(inputs: seq<InputMapping>, m: InputMapping, state: DeviceState)
    ensures AnyPressed(inputs + [m], state) <==> AnyPressed(inputs, state) || Pressed(m, state)
  {
    AnyPressedIff(inputs, state);
    AnyPressedIff(inputs + [m], state);
    assert forall x :: x in inputs + [m] <==> x in inputs || x == m;
  }

  /** An unknown action name, written to standard error by IsDown. */
  datatype InputError = UnknownAction(name: string)

  class InputMap {
    var mappings: map<string, seq<InputMapping>>
    /** Messages written to standard error. */
    ghost var errors: seq<InputError>

    /** InputMap.cs:22-25. */
    constructor()
      ensures mappings == map[] && errors == []
    {
      mappings := map[];
      errors := [];
    }

    /**
     * InputMap.cs:27-37 and 39-49: bind one more input to `name`, after the
     * ones bound before; the first binding creates the name.  A binding that
     * is already present is added again.
     */
    method CreateMapping(name: string, input: InputMapping)
      modifies this`mappings
      ensures name in mappings
      ensures mappings[name] == (if name in old(mappings) then old(mappings)[name] else []) + [input]
      ensures mappings.Keys == old(mappings).Keys + {name}
      ensures forall other :: other in old(mappings) && other != name ==> mappings[other] == old(mappings)[other]
    {
      if name !in mappings {
        mappings := mappings[name := []];
      }
      mappings := mappings[name := mappings[name] + [input]];
    }

    /**
     * InputMap.cs:51-77: an unknown name is reported and is not down; a known
     * name is down when one of its bindings is, the bindings tried in order.
     */
    method IsDown(name: string, state: DeviceState) returns (down: bool)
      modifies this`errors
      ensures down <==> name in mappings && exists m :: m in mappings[name] && Pressed(m, state)
      ensures errors == old(errors) + if name in mappings then [] else [UnknownAction(name)]
    {
      if name !in mappings {
        errors := errors + [UnknownAction(name)];
        return false;
      }
      var inputs := mappings[name];
      var i := 0;
      while i < |inputs|
        invariant 0 <= i <= |inputs|
        invariant forall j :: 0 <= j < i ==> !Pressed(inputs[j], state)
      {
        if Pressed(inputs[i], state) {
          return true;
        }
        i := i + 1;
      }
      down := false;
    }
  }

  /** After binding `input` to `name`, the action is down exactly when it was down before or `input` is. */
  lemma BindingWidens(before: map<string, seq<InputMapping>>, name: string, input: InputMapping, state: DeviceState)
    ensures var after := (if name in before then before[name] else []) + [input];
      AnyPressed(after, state) <==> (name in before && AnyPressed(before[name], state)) || Pressed(input, state)
  {
    var bound := if name in before then before[name] else [];
    AnyPressedAppend(bound, input, state);
  }
}
