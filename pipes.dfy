/**
 * Values that flow through a knot, the symbol table of named pipes, and the
 * left-to-right application of a pipe chain to a raw access-point value.
 */
module Pipes {

  datatype Option<T> = None | Some(value: T)

  /** The JavaScript values an access point can hold, as far as the engine cares. */
  datatype Value =
    | Undefined
    | Null
    | Bool(b: bool)
    | Number(n: int)
    | Str(s: string)
    | Array(items: seq<Value>)

  /** A pipe: a one-argument transform looked up by name. */
  type Pipe = Value -> Value

  /** Names of pipes (declared or generated for inline blocks) to their functions. */
  type SymbolTable = map<string, Pipe>

  /**
   * The exceptions the engine and the debugger can raise.  Each is a
   * JavaScript TypeError in the source: calling `apply` on a symbol that is
   * not a function, reading a method of an unset `provider`, calling an
   * optional provider method that is absent, or reading the length of the
   * missing option list of a debugger node record.
   */
  datatype Fault =
    | PipeNotFunction(pipe: string)
    | ProviderUndefined(apName: string)
    | MonitorUndefined(apName: string)
    | StopMonitoringUndefined(apName: string)
    | OptionsUndefined(nodeDescription: string)

  datatype Result<T> = Ok(value: T) | Threw(fault: Fault)

  /** The outcome of an operation that returns nothing. */
  datatype Outcome = Completed | Failed(fault: Fault)

  /**
   * Applies `pipes` to `v` from left to right.  The first name that is not in
   * the table stops the chain with `PipeNotFunction` naming it.
   */
  function ApplyPipes(v: Value, pipes: seq<string>, symbols: SymbolTable): Result<Value>
    decreases |pipes|
  {
    if pipes == [] then Ok(v)
    else if pipes[0] !in symbols then Threw(PipeNotFunction(pipes[0]))
    else ApplyPipes(symbols[pipes[0]](v), pipes[1..], symbols)
  }

  /** Every name of the chain is a function in the table. */
  predicate AllDefined(pipes: seq<string>, symbols: SymbolTable) {
    forall i :: 0 <= i < |pipes| ==> pipes[i] in symbols
  }

  /**
   * Reference definition of the chain as a fold that peels the LAST pipe:
   * the result of the whole chain is the last pipe applied to the result of
   * the chain before it.
   */
  function FoldPipes(v: Value, pipes: seq<string>, symbols: SymbolTable): Value
    requires AllDefined(pipes, symbols)
    decreases |pipes|
  {
    if pipes == [] then v
    else symbols[pipes[|pipes| - 1]](FoldPipes(v, pipes[..|pipes| - 1], symbols))
  }

  /** Index of the first name of the chain that is not in the table, or |pipes|. */
  function FirstUndefined(pipes: seq<string>, symbols: SymbolTable): (k: nat)
    ensures k <= |pipes|
    ensures forall i :: 0 <= i < k ==> pipes[i] in symbols
    ensures k < |pipes| ==> pipes[k] !in symbols
    decreases |pipes|
  {
    if pipes == [] || pipes[0] !in symbols then 0
    else 1 + FirstUndefined(pipes[1..], symbols)
  }

  /** A chain succeeds exactly when every pipe is defined; a failure names the first undefined pipe. */
  lemma {:induction false} ApplyPipesOutcome(v: Value, pipes: seq<string>, symbols: SymbolTable)
    ensures ApplyPipes(v, pipes, symbols).Ok? <==> AllDefined(pipes, symbols)
    ensures !AllDefined(pipes, symbols) ==>
      ApplyPipes(v, pipes, symbols) == Threw(PipeNotFunction(pipes[FirstUndefined(pipes, symbols)]))
    decreases |pipes|
  {
    if pipes != [] && pipes[0] in symbols {
      var rest := pipes[1..];
      ApplyPipesOutcome(symbols[pipes[0]](v), rest, symbols);
      assert AllDefined(pipes, symbols) <==> AllDefined(rest, symbols) by {
        if AllDefined(rest, symbols) {
          forall i | 0 <= i < |pipes| ensures pipes[i] in symbols {
            if i > 0 { assert pipes[i] == rest[i - 1]; }
          }
        }
      }
    }
  }

  /** Running the chain `a + b` is running `a` and then running `b` on its result. */
  lemma {:induction false} ApplyPipesAppend(v: Value, a: seq<string>, b: seq<string>, symbols: SymbolTable)
    ensures ApplyPipes(v, a + b, symbols) ==
      match ApplyPipes(v, a, symbols)
      case Ok(w) => ApplyPipes(w, b, symbols)
      case Threw(f) => Threw(f)
    decreases |a|
  {
    if a != [] {
      assert (a + b)[0] == a[0];
      assert (a + b)[1..] == a[1..] + b;
      if a[0] in symbols {
        ApplyPipesAppend(symbols[a[0]](v), a[1..], b, symbols);
      }
    } else {
      assert a + b == b;
    }
  }

  /** When every pipe is defined the chain computes the reference fold. */
  lemma {:induction false} ApplyPipesIsFold(v: Value, pipes: seq<string>, symbols: SymbolTable)
    requires AllDefined(pipes, symbols)
    ensures ApplyPipes(v, pipes, symbols) == Ok(FoldPipes(v, pipes, symbols))
    decreases |pipes|
  {
    if pipes != [] {
      var n := |pipes| - 1;
      var init := pipes[..n];
      assert pipes == init + [pipes[n]];
      ApplyPipesIsFold(v, init, symbols);
      ApplyPipesAppend(v, init, [pipes[n]], symbols);
    }
  }
}
