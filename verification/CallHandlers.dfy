/** The handlers that call other flows: execute, schema and list. */
module CallHandlers {
  import opened Common
  import opened Schema
  import opened World
  import opened Tree
  import opened Parsing
  import opened Machine
  import opened FlowObject
  import opened Calls
  import Termination

  /** Fork, Route, and cancel the caller if the forked flow was cancelled. */
  method CallFlow(scope: Flow, callee: Block, handler: Oracle)
    modifies scope`cancel
    ensures scope.Now() == old(scope.Now()).(cancel := old(scope.cancel) || RunOf(callee, handler).cancel)
  {
    hide WellFormed, Ok, Compile, Termination.Rounds;
    var fork := new Flow(callee);
    fork.Route(handler);
    if fork.cancel {
      scope.cancel := true;
    }
  }

  /** execute with FunctionScope: an unknown or missing name is an error and calls nothing. An asynchronous
      call reads the forked flow's flag right away; it then matters whether that run is over `early`. */
  method Execute(
    scope: Flow, functions: map<string, Block>, name: string, async: bool, early: bool, handler: Oracle)
    returns (ok: bool)
    modifies scope`cancel
    ensures ok <==> name != "" && name in functions
    ensures scope.Now() == old(scope.Now()).(
              cancel := old(scope.cancel) || (ok && (!async || early) && RunOf(functions[name], handler).cancel))
  {
    if name == "" || name !in functions {
      return false;
    }
    if !async || early {
      CallFlow(scope, functions[name], handler);
    }
    return true;
  }

  /** schema: a schema that cannot be found is an error and calls nothing. An asynchronous call never
      cancels the caller. */
  method CallSchema(scope: Flow, schema: Option<Block>, async: bool, handler: Oracle) returns (ok: bool)
    modifies scope`cancel
    ensures ok <==> schema.Some?
    ensures scope.Now() == old(scope.Now()).(
              cancel := old(scope.cancel) || (ok && !async && RunOf(schema.value, handler).cancel))
  {
    if schema.None? {
      return false;
    }
    if !async {
      CallFlow(scope, schema.value, handler);
    }
    return true;
  }

  /** List: the actions are run only if the number is on the list. */
  method CallList(scope: Flow, actions: Block, listed: Option<bool>, handler: Oracle) returns (ok: bool)
    modifies scope`cancel
    ensures ok <==> actions.Then? && listed.Some?
    ensures scope.Now() == old(scope.Now()).(
              cancel := old(scope.cancel) || (ok && listed.value && RunOf(actions, handler).cancel))
  {
    if actions.End? || listed.None? {
      return false;
    }
    if listed.value {
      CallFlow(scope, actions, handler);
    }
    return true;
  }
}
