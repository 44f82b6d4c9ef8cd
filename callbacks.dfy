/**
 * The editor's named callback lists: handlers are added per name, removed
 * one at a time, and invoked in registration order.  A handler is known
 * here only by its identity; whether calling it throws is a parameter.
 */
module Callbacks {

  /** A handler function, compared by identity as `indexOf` does. */
  type Handler = nat

  /** The names registered when the module loads. */
  const BUILTIN_NAMES: seq<string> :=
    ["render", "selectionChanged", "dataChanged", "fileLoaded", "fileSaved", "undoStackChanged"]

  /** The handler list of a name; a name never added to has none. */
  function HandlersOf(lists: map<string, seq<Handler>>, name: string): seq<Handler>
  {
    if name in lists then lists[name] else []
  }

  /** `fns.splice(fns.indexOf(fn), 1)` when `fn` is present: one copy of `fn` goes, nothing else. */
  function RemoveFirst(fns: seq<Handler>, fn: Handler): (r: seq<Handler>)
    ensures fn !in fns ==> r == fns
    ensures multiset(r) == multiset(fns) - multiset{fn}
  {
    if fns == [] then []
    else
      assert fns == [fns[0]] + fns[1..];
      if fns[0] == fn then fns[1..] else [fns[0]] + RemoveFirst(fns[1..], fn)
  }

  /** The handlers of `fns` that throw, in call order. */
  function Throwing(fns: seq<Handler>, throws: Handler -> bool): (r: seq<Handler>)
    ensures forall h :: h in r <==> h in fns && throws(h)
  {
    if fns == [] then []
    else Throwing(fns[..|fns| - 1], throws) + (if throws(fns[|fns| - 1]) then [fns[|fns| - 1]] else [])
  }

  /** Removing right after adding a handler that was not there restores the list. */
  lemma {:induction false} RemoveUndoesAdd(fns: seq<Handler>, fn: Handler)
    requires fn !in fns
    ensures RemoveFirst(fns + [fn], fn) == fns
  {
    if fns != [] {
      var s := fns + [fn];
      assert s[0] == fns[0] && s[1..] == fns[1..] + [fn];
      RemoveUndoesAdd(fns[1..], fn);
      RemoveFirstSkips(s, fn);
      assert [fns[0]] + fns[1..] == fns;
    }
  }

  /** A list whose head is another handler keeps that head. */
  lemma RemoveFirstSkips(fns: seq<Handler>, fn: Handler)
    requires fns != [] && fns[0] != fn
    ensures RemoveFirst(fns, fn) == [fns[0]] + RemoveFirst(fns[1..], fn)
  {
  }

  /** Only the first of two registrations of the same handler goes. */
  lemma RemoveLeavesLaterCopy(fns: seq<Handler>, fn: Handler)
    requires fn in fns
    ensures fn in RemoveFirst(fns + [fn], fn)
  {
    var r := RemoveFirst(fns + [fn], fn);
    assert multiset(fns + [fn]) == multiset(fns) + multiset{fn};
    assert fn in multiset(fns);
    var m: multiset<Handler> := multiset(r);
    assert m[fn] >= 1;
    assert fn in m;
  }

  class CallbackRegistry {
    var lists: map<string, seq<Handler>>

    /** Module load: the built-in names, each with an empty list. */
    constructor()
      ensures lists == map name | name in BUILTIN_NAMES :: []
    {
      lists := map name | name in BUILTIN_NAMES :: [];
    }

    /** `registerCallback`: create an empty list unless the name has one. */
    method Register(name: string)
      modifies this
      ensures lists == if name in old(lists) then old(lists) else old(lists)[name := []]
    {
      if name !in lists {
        lists := lists[name := []];
      }
    }

    /** `addCallback`: append, creating the list on first use. */
    method Add(name: string, fn: Handler)
      modifies this
      ensures lists == old(lists)[name := HandlersOf(old(lists), name) + [fn]]
      ensures HandlersOf(lists, name) == HandlersOf(old(lists), name) + [fn]
    {
      if name !in lists {
        lists := lists[name := []];
      }
      lists := lists[name := lists[name] + [fn]];
    }

    /** `removeCallback`: drop the first occurrence; an unknown name or handler changes nothing. */
    method Remove(name: string, fn: Handler)
      modifies this
      ensures name in old(lists) ==> lists == old(lists)[name := RemoveFirst(old(lists)[name], fn)]
      ensures name !in old(lists) ==> lists == old(lists)
    {
      if name in lists {
        var fns := lists[name];
        var i := 0;
        while i < |fns| && fns[i] != fn
          invariant 0 <= i <= |fns|
          invariant forall j :: 0 <= j < i ==> fns[j] != fn
        {
          i := i + 1;
        }
        if i < |fns| {
          RemoveAt(fns, fn, i);
          lists := lists[name := fns[..i] + fns[i + 1..]];
        } else {
          assert fn !in fns;
          assert lists == lists[name := fns];
        }
      }
    }

    /**
     * `invokeCallback`: every handler of the name is called once, in
     * order; one that throws is reported and the rest still run.
     */
    method Invoke(name: string, throws: Handler -> bool) returns (called: seq<Handler>, failed: seq<Handler>)
      ensures called == HandlersOf(lists, name)
      ensures failed == Throwing(called, throws)
      ensures name !in lists ==> called == [] && failed == []
    {
      called, failed := [], [];
      if name in lists {
        var fns := lists[name];
        var i := 0;
        while i < |fns|
          invariant 0 <= i <= |fns|
          invariant called == fns[..i]
          invariant failed == Throwing(fns[..i], throws)
        {
          assert fns[..i + 1][..i] == fns[..i];
          called := called + [fns[i]];
          if throws(fns[i]) {
            failed := failed + [fns[i]];
          }
          i := i + 1;
        }
        assert fns[..|fns|] == fns;
      }
    }

    /** `clearCallbacks`: the name's list becomes empty, created if missing. */
    method Clear(name: string)
      modifies this
      ensures lists == old(lists)[name := []]
      ensures HandlersOf(lists, name) == []
    {
      lists := lists[name := []];
    }
  }

  /** The copy that goes is the first one: the splice at `indexOf`. */
  lemma {:induction false} RemoveAt(fns: seq<Handler>, fn: Handler, i: nat)
    requires i < |fns| && fns[i] == fn && forall j :: 0 <= j < i ==> fns[j] != fn
    ensures RemoveFirst(fns, fn) == fns[..i] + fns[i + 1..]
  {
    if i == 0 {
      assert fns[..0] + fns[1..] == fns[1..];
    } else {
      RemoveAt(fns[1..], fn, i - 1);
      RemoveFirstSkips(fns, fn);
      SpliceCons(fns, i);
    }
  }

  lemma SpliceCons(fns: seq<Handler>, i: nat)
    requires 0 < i < |fns|
    ensures [fns[0]] + (fns[1..][..i - 1] + fns[1..][i..]) == fns[..i] + fns[i + 1..]
  {
    assert fns[..i] == [fns[0]] + fns[1..][..i - 1];
    assert fns[1..][i..] == fns[i + 1..];
  }
}
