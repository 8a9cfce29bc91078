/**
 * logkit's manager: a threshold level, a store path, a prefix and the chain
 * of handlers, keyed by handler name. logf builds a record for each
 * admitted call and hands it to every handler of the chain.
 */
module LogKit {
  import opened Wrappers
  import opened LogLevel
  import opened LogHandle
  import StrKit

  const CONSOLE: string := "console"
  const FILE: string := "file"

  /** Every handler of a chain sits under its own name. */
  predicate ValidChain(chain: map<string, Handler>) {
    forall k :: k in chain ==> Name(chain[k]) == k
  }

  /** The handler `Handle(name)` creates: only `"file"` names one. */
  function BuiltIn(name: string): (h: Option<Handler>)
    ensures h.Some? <==> name == FILE
    ensures h.Some? ==> Name(h.value) == name
  {
    if name == FILE then Some(File) else None
  }

  /** Registration that never replaces: a name already in the chain keeps its handler. */
  function Register(chain: map<string, Handler>, h: Handler): (r: map<string, Handler>)
    ensures r.Keys == chain.Keys + {Name(h)}
    ensures forall k :: k in chain ==> r[k] == chain[k]
    ensures Name(h) !in chain ==> r[Name(h)] == h
  {
    if Name(h) in chain then chain else chain[Name(h) := h]
  }

  /** Registration of each handler in turn. */
  function RegisterAll(chain: map<string, Handler>, hs: seq<Handler>): map<string, Handler> {
    if |hs| == 0 then chain else Register(RegisterAll(chain, hs[..|hs| - 1]), hs[|hs| - 1])
  }

  /** The names of a list of handlers. */
  function Names(hs: seq<Handler>): (r: set<string>)
    ensures forall i :: 0 <= i < |hs| ==> Name(hs[i]) in r
    ensures forall k :: k in r ==> exists i :: 0 <= i < |hs| && Name(hs[i]) == k
  {
    set i | 0 <= i < |hs| :: Name(hs[i])
  }

  /** After registering `hs`, the keys are the old keys and the names of `hs`, and no others. */
  lemma {:induction false} RegisterAllKeys(chain: map<string, Handler>, hs: seq<Handler>)
    ensures RegisterAll(chain, hs).Keys == chain.Keys + Names(hs)
  {
    if |hs| > 0 {
      var init, last := hs[..|hs| - 1], hs[|hs| - 1];
      RegisterAllKeys(chain, init);
      NamesSnoc(hs);
    }
  }

  lemma NamesSnoc(hs: seq<Handler>)
    requires |hs| > 0
    ensures Names(hs) == Names(hs[..|hs| - 1]) + {Name(hs[|hs| - 1])}
  {
    var init := hs[..|hs| - 1];
    forall k | k in Names(hs) ensures k in Names(init) + {Name(hs[|hs| - 1])} {
      var i :| 0 <= i < |hs| && Name(hs[i]) == k;
      if i < |hs| - 1 {
        assert init[i] == hs[i];
      }
    }
    forall k | k in Names(init) ensures k in Names(hs) {
      var i :| 0 <= i < |init| && Name(init[i]) == k;
      assert hs[i] == init[i];
    }
  }

  /** Registration never replaces: every old entry is still there, unchanged. */
  lemma {:induction false} RegisterAllKeeps(chain: map<string, Handler>, hs: seq<Handler>)
    ensures forall k :: k in chain ==> k in RegisterAll(chain, hs) && RegisterAll(chain, hs)[k] == chain[k]
  {
    if |hs| > 0 {
      RegisterAllKeeps(chain, hs[..|hs| - 1]);
    }
  }

  /** A new key holds the first handler of `hs` with that name: the first registration wins. */
  lemma {:induction false} RegisterAllFirstWins(chain: map<string, Handler>, hs: seq<Handler>, i: int)
    requires 0 <= i < |hs| && Name(hs[i]) !in chain && FirstNamed(hs, i)
    ensures Name(hs[i]) in RegisterAll(chain, hs) && RegisterAll(chain, hs)[Name(hs[i])] == hs[i]
  {
    var init, last := hs[..|hs| - 1], hs[|hs| - 1];
    if i < |hs| - 1 {
      assert init[i] == hs[i];
      assert FirstNamed(init, i);
      RegisterAllFirstWins(chain, init, i);
    } else {
      RegisterAllKeys(chain, init);
      NotNamedBefore(init, Name(last));
    }
  }

  /** `hs[i]` is the first handler of `hs` with its name. */
  predicate FirstNamed(hs: seq<Handler>, i: int)
    requires 0 <= i < |hs|
  {
    forall j :: 0 <= j < i ==> Name(hs[j]) != Name(hs[i])
  }

  lemma NotNamedBefore(hs: seq<Handler>, k: string)
    requires forall j :: 0 <= j < |hs| ==> Name(hs[j]) != k
    ensures k !in Names(hs)
  {
  }

  /** Registration keeps every handler under its own name. */
  lemma {:induction false} RegisterAllValid(chain: map<string, Handler>, hs: seq<Handler>)
    requires ValidChain(chain)
    ensures ValidChain(RegisterAll(chain, hs))
  {
    if |hs| > 0 {
      RegisterAllValid(chain, hs[..|hs| - 1]);
    }
  }

  /** Registering the same handlers a second time changes nothing. */
  lemma {:induction false} RegisterAllIdempotent(chain: map<string, Handler>, hs: seq<Handler>)
    ensures RegisterAll(RegisterAll(chain, hs), hs) == RegisterAll(chain, hs)
  {
    var once := RegisterAll(chain, hs);
    RegisterAllKeys(chain, hs);
    RegisterAllKeys(once, hs);
    RegisterAllKeeps(once, hs);
    assert RegisterAll(once, hs).Keys == once.Keys;
  }

  /** A record passes the gate when its level is at most the threshold, as the source compares them. */
  predicate Admits(threshold: int, level: int) {
    level <= threshold
  }

  /** The record logf builds; a caller that cannot be found is reported as `???`, line 0. */
  function MakeRecord(level: int, msg: string, args: seq<StrKit.Arg>, caller: Option<Frame>, time: string): (rec: Record)
    ensures rec.level == level && rec.time == time
    ensures rec.message == StrKit.Formatted(msg, "{}", args)
    ensures caller.None? ==> rec.file == "???" && rec.line == 0
    ensures caller.Some? ==> rec.file == caller.value.file && rec.line == caller.value.line
  {
    match caller
    case None => Record(level, StrKit.Formatted(msg, "{}", args), "???", 0, time)
    case Some(f) => Record(level, StrKit.Formatted(msg, "{}", args), f.file, f.line, time)
  }

  class LogMgr {
    var level: int
    var storePath: string
    var handleChain: map<string, Handler>
    var prefix: string

    predicate Valid()
      reads this
    {
      ValidChain(handleChain)
    }

    /** The default manager: threshold INFO, no store path, no prefix, only the console handler. */
    constructor Default()
      ensures level == INFO && storePath == "" && prefix == ""
      ensures handleChain == map[CONSOLE := Console]
      ensures Valid()
    {
      level := INFO;
      storePath := "";
      prefix := "";
      handleChain := map[CONSOLE := Console];
    }

    method SetLevel(l: int) returns (self: LogMgr)
      modifies this`level
      ensures self == this && level == l
      ensures storePath == old(storePath) && prefix == old(prefix) && handleChain == old(handleChain)
    {
      level := l;
      self := this;
    }

    method StorePath(path: string) returns (self: LogMgr)
      modifies this`storePath
      ensures self == this && storePath == path
      ensures level == old(level) && prefix == old(prefix) && handleChain == old(handleChain)
    {
      storePath := path;
      self := this;
    }

    method SetPrefix(p: string) returns (self: LogMgr)
      modifies this`prefix
      ensures self == this && prefix == p
      ensures level == old(level) && storePath == old(storePath) && handleChain == old(handleChain)
    {
      prefix := p;
      self := this;
    }

    /**
     * Adds the built-in handler called `handleName` unless that name is
     * already taken. Only `"file"` names a handler it can create, so
     * `"console"` and unknown names change nothing.
     */
    method Handle(handleName: string) returns (self: LogMgr)
      modifies this`handleChain
      ensures self == this
      ensures handleChain == (if handleName == FILE then Register(old(handleChain), File) else old(handleChain))
      ensures level == old(level) && storePath == old(storePath) && prefix == old(prefix)
      ensures old(Valid()) ==> Valid()
    {
      var h := BuiltIn(handleName);
      if handleName !in handleChain && h.Some? {
        handleChain := handleChain[handleName := h.value];
      }
      self := this;
    }

    /** Registers each handler in turn under its name, keeping whatever is already registered. */
    method AddHandler(handlers: seq<Handler>) returns (self: LogMgr)
      modifies this`handleChain
      ensures self == this
      ensures handleChain == RegisterAll(old(handleChain), handlers)
      ensures level == old(level) && storePath == old(storePath) && prefix == old(prefix)
      ensures old(Valid()) ==> Valid()
    {
      if |handlers| > 0 {
        for i := 0 to |handlers|
          invariant handleChain == RegisterAll(old(handleChain), handlers[..i])
        {
          var h := handlers[i];
          assert handlers[..i + 1][..i] == handlers[..i];
          if Name(h) !in handleChain {
            handleChain := handleChain[Name(h) := h];
          }
        }
        assert handlers[..|handlers|] == handlers;
      }
      if old(Valid()) {
        RegisterAllValid(old(handleChain), handlers);
      }
      self := this;
    }

    /**
     * logf on this manager. A call whose level passes the gate builds a record
     * and runs every handler of the chain exactly once, in the map's order;
     * `dispatched` lists the keys in the order they were visited and
     * `effects` what each handler did. The caller's frame, the time, the stack
     * below the call and the file system are supplied by the caller.
     */
    method Logf(lvl: int, msg: string, args: seq<StrKit.Arg>, caller: Option<Frame>, time: string,
                stack: seq<Frame>, disk: Disk)
      returns (rec: Option<Record>, dispatched: seq<string>, effects: seq<Effect>)
      ensures rec.Some? <==> Admits(level, lvl)
      ensures rec.Some? ==> rec.value == MakeRecord(lvl, msg, args, caller, time)
      ensures rec.None? ==> dispatched == [] && effects == []
      ensures rec.Some? ==> multiset(dispatched) == multiset(handleChain.Keys)
      ensures |effects| == |dispatched|
      ensures forall i :: 0 <= i < |dispatched| ==> dispatched[i] in handleChain
      ensures rec.Some? ==> forall i :: 0 <= i < |dispatched| ==>
                effects[i] == Outcome(handleChain[dispatched[i]], rec.value, prefix, storePath, stack, disk)
      ensures Valid() ==> forall i :: 0 <= i < |dispatched| ==> Name(handleChain[dispatched[i]]) == dispatched[i]
    {
      rec, dispatched, effects := None, [], [];
      if lvl <= level {
        var file, line := "???", 0;
        if caller.Some? {
          file, line := caller.value.file, caller.value.line;
        }
        var formatMsg := StrKit.Format(msg, "{}", args);
        var logIns := Record(lvl, formatMsg, file, line, time);
        rec := Some(logIns);
        dispatched, effects := Dispatch(handleChain, logIns, prefix, storePath, stack, disk);
      }
    }
  }

  /**
   * The loop of logf over the handler chain: every handler runs once on the
   * record, in whatever order the map yields its keys. `dispatched` lists the
   * keys in the order visited and `effects` what each handler did.
   */
  method Dispatch(chain: map<string, Handler>, rec: Record, prefix: string, storePath: string,
                  stack: seq<Frame>, disk: Disk)
    returns (dispatched: seq<string>, effects: seq<Effect>)
    ensures multiset(dispatched) == multiset(chain.Keys)
    ensures |effects| == |dispatched|
    ensures forall i :: 0 <= i < |dispatched| ==> dispatched[i] in chain
    ensures forall i :: 0 <= i < |dispatched| ==>
              effects[i] == Outcome(chain[dispatched[i]], rec, prefix, storePath, stack, disk)
  {
    dispatched, effects := [], [];
    var remaining := chain.Keys;
    while remaining != {}
      invariant remaining <= chain.Keys
      invariant multiset(dispatched) + multiset(remaining) == multiset(chain.Keys)
      invariant |effects| == |dispatched|
      invariant forall i :: 0 <= i < |dispatched| ==> dispatched[i] in chain
      invariant effects == Outcomes(chain, dispatched, rec, prefix, storePath, stack, disk)
      decreases |remaining|
    {
      var k :| k in remaining;
      var e := HandleRecord(chain[k], rec, prefix, storePath, stack, disk);
      TakeOne(remaining, k);
      assert (dispatched + [k])[..|dispatched|] == dispatched;
      dispatched, effects := dispatched + [k], effects + [e];
      remaining := remaining - {k};
    }
  }

  /** What the handlers under `keys` do with the record, in that order. */
  function Outcomes(chain: map<string, Handler>, keys: seq<string>, rec: Record, prefix: string,
                    storePath: string, stack: seq<Frame>, disk: Disk): (r: seq<Effect>)
    requires forall i :: 0 <= i < |keys| ==> keys[i] in chain
    ensures |r| == |keys|
    ensures forall i :: 0 <= i < |keys| ==> r[i] == Outcome(chain[keys[i]], rec, prefix, storePath, stack, disk)
  {
    if |keys| == 0 then []
    else
      var last := keys[|keys| - 1];
      Outcomes(chain, keys[..|keys| - 1], rec, prefix, storePath, stack, disk)
      + [Outcome(chain[last], rec, prefix, storePath, stack, disk)]
  }

  /** Taking one key out of a set moves it, and only it, out of its multiset. */
  lemma TakeOne(s: set<string>, k: string)
    requires k in s
    ensures multiset(s) == multiset(s - {k}) + multiset{k}
  {
  }

  /** The threshold ERROR admits every named level. */
  lemma ErrorAdmitsAll(level: int)
    requires TRACE <= level <= ERROR
    ensures Admits(ERROR, level)
  {
  }

  /** The threshold TRACE admits TRACE and no other named level. */
  lemma TraceAdmitsOnlyTrace(level: int)
    requires TRACE <= level <= ERROR
    ensures Admits(TRACE, level) <==> level == TRACE
  {
  }

  /** The default threshold INFO admits TRACE, DEBUG and INFO, and not WARN or ERROR. */
  lemma DefaultAdmits(level: int)
    requires TRACE <= level <= ERROR
    ensures Admits(INFO, level) <==> level == TRACE || level == DEBUG || level == INFO
  {
  }
}
