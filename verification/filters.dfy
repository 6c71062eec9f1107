/**
 * The filter chain of public/js/chirp/index.js: `applyFilters`, a
 * continuation-passing chain in which each filter runs only if the one
 * before it called `next`; `chirp.prototype.use`, which registers filters;
 * and the client's `data` handler, which sends incoming messages through
 * the registered filters and then a last filter that renders a `Message`.
 *
 * A filter is a function of the data it is handed to what it does next: it
 * calls `next`, possibly after changing the (shared) data object, or it
 * stops the chain.
 */
module ChirpFilters {
  import opened Wrappers
  import opened JsValues

  /** The object a message arrives as: the fields the handler and `Message` read. */
  datatype Data = Data(sid: Value, owner: Value, message: Value, timestamp: Value)

  /** What a filter does with the data it was handed. */
  datatype Step = Next(data: Data) | Halt

  /** A filter `function (data, next)`. */
  type Filter = Data -> Step

  /** An argument given to `use`: a function, or any other value. */
  datatype UseArg = FilterArg(f: Filter) | OtherArg(v: Value)

  /** The TypeError `use` throws on a non-function. */
  datatype UseError = ExpectingFunction

  /** A `Message`: the owner, text and timestamp copied from the data. */
  datatype Message = Message(owner: Value, message: Value, timestamp: Value)

  /**
   * The outcome of running a chain: how many filters ran, the data the last
   * of them was handed (or that `next` was last called with), and whether the
   * chain ran to its end.
   */
  datatype Run = Run(invoked: nat, data: Data, completed: bool)

  /** A run preceded by `k` filters that all called `next`. */
  function After(k: nat, r: Run): Run {
    Run(k + r.invoked, r.data, r.completed)
  }

  /** The chain `fs` run on `d`, filter by filter. */
  function RunChain(fs: seq<Filter>, d: Data): Run
    decreases |fs|
  {
    if fs == [] then Run(0, d, true)
    else
      match fs[0](d)
      case Halt => Run(1, d, false)
      case Next(d') => After(1, RunChain(fs[1..], d'))
  }

  /**
   * Filters run in list order and a chain that stops does so at a filter
   * that did not call `next`: at most every filter runs, a completed chain
   * ran them all, and an incomplete one ended at the filter that halted.
   */
  lemma {:induction false} RunChainShape(fs: seq<Filter>, d: Data)
    ensures RunChain(fs, d).invoked <= |fs|
    ensures RunChain(fs, d).completed ==> RunChain(fs, d).invoked == |fs|
    ensures !RunChain(fs, d).completed ==>
      RunChain(fs, d).invoked >= 1 && fs[RunChain(fs, d).invoked - 1](RunChain(fs, d).data) == Halt
    decreases |fs|
  {
    if fs != [] {
      match fs[0](d)
      case Halt =>
      case Next(d') =>
        RunChainShape(fs[1..], d');
        var r := RunChain(fs[1..], d');
        if !r.completed {
          assert fs[1..][r.invoked - 1] == fs[r.invoked];
        }
    }
  }

  /**
   * The filters of `b` run only if every filter of `a` called `next`, and
   * then on the data the last of them passed on.
   */
  lemma {:induction false} RunChainAppend(a: seq<Filter>, b: seq<Filter>, d: Data)
    ensures RunChain(a + b, d) ==
      if RunChain(a, d).completed then After(|a|, RunChain(b, RunChain(a, d).data))
      else RunChain(a, d)
    decreases |a|
  {
    if a == [] {
      assert a + b == b;
    } else {
      assert (a + b)[0] == a[0];
      assert (a + b)[1..] == a[1..] + b;
      match a[0](d)
      case Halt =>
      case Next(d') =>
        RunChainAppend(a[1..], b, d');
    }
  }

  /**
   * `applyFilters(filters, data)`: shifts filters off a copy of the list
   * and calls each with the data and `next`, going on only when `next` was
   * called. The caller's list is a value here, so it cannot be changed.
   */
  method ApplyFilters(filters: seq<Filter>, data: Data) returns (r: Run)
    ensures r == RunChain(filters, data)
  {
    var tmp := filters;
    var d := data;
    var count := 0;
    while tmp != []
      invariant count <= |filters| && tmp == filters[count..]
      invariant After(count, RunChain(tmp, d)) == RunChain(filters, data)
      decreases |tmp|
    {
      var fn := tmp[0];
      tmp := tmp[1..];
      count := count + 1;
      match fn(d)
      case Halt =>
        return Run(count, d, false);
      case Next(d') =>
        d := d';
    }
    return Run(count, d, true);
  }

  /** The last filter of the data handler: renders a `Message` of the data and does not call `next`. */
  function Render(d: Data): Step {
    Halt
  }

  /**
   * The `Message` constructor on an object: copies `owner`, `message` and
   * `timestamp` and nothing else.
   */
  function MessageOf(d: Data): (m: Message)
    ensures m.owner == d.owner && m.message == d.message && m.timestamp == d.timestamp
  {
    Message(d.owner, d.message, d.timestamp)
  }

  /**
   * The render filter placed after the registered ones runs exactly when
   * the registered chain completed, and then on the data it passed on.
   */
  lemma RenderRunsLast(filters: seq<Filter>, d: Data)
    ensures var run := RunChain(filters + [Render], d);
      (run.invoked == |filters| + 1 <==> RunChain(filters, d).completed)
      && (run.invoked == |filters| + 1 ==> run.data == RunChain(filters, d).data)
  {
    RunChainAppend(filters, [Render], d);
    RunChainShape(filters, d);
  }

  /**
   * The data handler's test of the session id as written,
   * `if (undefined === data.sid) client.sid = data.sid`: it stores the sid
   * only when there is none.
   */
  function SidAfterAsWritten(current: Value, data: Data): (r: Value)
    ensures data.sid != Undefined ==> r == current
    ensures data.sid == Undefined ==> r == Undefined
  {
    if data.sid == Undefined then data.sid else current
  }

  /** The evidently intended test, `undefined !== data.sid`: a sid that arrives is stored. */
  function SidAfter(current: Value, data: Data): (r: Value)
    ensures data.sid != Undefined ==> r == data.sid
    ensures data.sid == Undefined ==> r == current
  {
    if data.sid != Undefined then data.sid else current
  }

  /** The handshake `{sid}` the server sends: as written its sid is never recorded. */
  lemma HandshakeSidLost(sid: string)
    ensures SidAfterAsWritten(Undefined, Data(Str(sid), Undefined, Undefined, Undefined)) == Undefined
    ensures SidAfter(Undefined, Data(Str(sid), Undefined, Undefined, Undefined)) == Str(sid)
  {
  }

  /** A `chirp` instance: its registered filters, the messages it rendered, and the client's sid. */
  class Chirp {
    /** `this.filters`, in registration order. */
    var filters: seq<Filter>
    /** The messages written to the page, in order. */
    var rendered: seq<Message>
    /** `client.sid`. */
    var clientSid: Value

    constructor ()
      ensures filters == [] && rendered == [] && clientSid == Undefined
    {
      filters, rendered, clientSid := [], [], Undefined;
    }

    /** `chirp.prototype.use(fn)`: appends a function; throws a TypeError for anything else. */
    method Use(arg: UseArg) returns (r: Result<(), UseError>)
      modifies this`filters
      ensures arg.FilterArg? ==> r.Ok? && filters == old(filters) + [arg.f]
      ensures arg.OtherArg? ==> r == Err(ExpectingFunction) && filters == old(filters)
    {
      if !arg.FilterArg? {
        return Err(ExpectingFunction);
      }
      filters := filters + [arg.f];
      r := Ok(());
    }

    /**
     * The client's `data` handler: records the sid, then, when both
     * `message` and `owner` are truthy, runs the registered filters followed
     * by the render filter on a copy of the list; a message is rendered
     * exactly when every registered filter called `next`.
     */
    method OnData(data: Data)
      modifies this`rendered, this`clientSid
      ensures clientSid == SidAfter(old(clientSid), data)
      ensures var run := RunChain(filters, data);
        rendered == old(rendered) +
          (if Truthy(data.message) && Truthy(data.owner) && run.completed then [MessageOf(run.data)] else [])
    {
      clientSid := SidAfter(clientSid, data);
      var tmpFilters := filters + [Render];
      if Truthy(data.message) && Truthy(data.owner) {
        var run := ApplyFilters(tmpFilters, data);
        RenderRunsLast(filters, data);
        if run.invoked == |tmpFilters| {
          rendered := rendered + [MessageOf(run.data)];
        }
      }
    }
  }
}
