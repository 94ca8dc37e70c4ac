/**
  The script-side registry of live connections (g_connclients): the Lua
  entry points hand out a client's address as a light userdata handle and
  accept only handles that are still registered.
*/
module Registry {
  import opened Common
  import opened ConnTypes
  import ConnPolicy

  /** A client's address as the script sees it; 0 is the null pointer. */
  type Handle = nat

  const Null: Handle := 0

  /** The registered handles in registration order, and the clients they point at. */
  datatype Script = Script(handles: seq<Handle>, clients: map<Handle, Conn>)

  /** Every registered handle is non-null and points at a live client. */
  predicate WellFormed(s: Script) {
    forall i :: 0 <= i < |s.handles| ==> s.handles[i] != Null && s.handles[i] in s.clients
  }

  /** A handle the entry points accept. */
  predicate Valid(reg: seq<Handle>, h: Handle) {
    h != Null && h in reg
  }

  /** The position of the first registration of h. */
  function FirstIndex(reg: seq<Handle>, h: Handle): (i: nat)
    requires h in reg
    ensures i < |reg| && reg[i] == h
    ensures forall j :: 0 <= j < i ==> reg[j] != h
  {
    if reg[0] == h then 0 else 1 + FirstIndex(reg[1..], h)
  }

  /** The registry without the first registration of h, or unchanged when h is null or absent. */
  function Remove(reg: seq<Handle>, h: Handle): (r: seq<Handle>)
  {
    if Valid(reg, h) then reg[..FirstIndex(reg, h)] + reg[FirstIndex(reg, h) + 1..] else reg
  }

  /** Removing drops exactly one registration of a valid handle and nothing else. */
  lemma RemoveSpec(reg: seq<Handle>, h: Handle)
    ensures Valid(reg, h) ==> |Remove(reg, h)| == |reg| - 1
    ensures multiset(Remove(reg, h)) == if Valid(reg, h) then multiset(reg) - multiset{h} else multiset(reg)
    ensures forall x :: x in Remove(reg, h) ==> x in reg
  {
    if Valid(reg, h) {
      var i := FirstIndex(reg, h);
      assert reg == reg[..i] + [h] + reg[i + 1..];
    }
    forall x | x in Remove(reg, h) ensures x in reg {
      assert x in multiset(Remove(reg, h));
    }
  }

  /** Removing a handle registered once, last, restores the registry as it was before. */
  lemma RemoveLast(reg: seq<Handle>, h: Handle)
    requires h != Null && h !in reg
    ensures Remove(reg + [h], h) == reg
  {
    var s := reg + [h];
    var i := FirstIndex(s, h);
    assert i == |reg|;
    assert s[..i] == reg;
  }

  /** IsConnectionValid: a scan of the registry for a non-null handle. */
  method IsConnectionValid(reg: seq<Handle>, h: Handle) returns (r: bool)
    ensures r <==> Valid(reg, h)
  {
    r := false;
    if h != Null {
      var i := 0;
      while i < |reg|
        invariant 0 <= i <= |reg|
        invariant !r ==> forall j :: 0 <= j < i ==> reg[j] != h
        invariant r ==> h in reg
      {
        if reg[i] == h {
          r := true;
          return;
        }
        i := i + 1;
      }
    }
  }

  /** RemoveConnection: erase the first entry equal to a non-null handle, then stop. */
  method RemoveConnection(reg: seq<Handle>, h: Handle) returns (r: seq<Handle>)
    ensures r == Remove(reg, h)
  {
    r := reg;
    if h != Null {
      var i := 0;
      while i < |reg|
        invariant 0 <= i <= |reg|
        invariant forall j :: 0 <= j < i ==> reg[j] != h
      {
        if reg[i] == h {
          r := reg[..i] + reg[i + 1..];
          return;
        }
        i := i + 1;
      }
    }
  }

  /** A client as `new ConnClient()` makes it: no Lua callbacks set. */
  function NewClient(): (c: Conn)
    ensures Unstarted(c)
  {
    NewConnDefaults(Callbacks(false, false, false, false, false));
    NewConn(Callbacks(false, false, false, false, false))
  }

  /** What the client's constructor leaves: a consistent client whose network thread was never started. */
  predicate Unstarted(c: Conn) {
    Inv(c) && !c.worker.started && c.worker.jobs == []
  }

  /**
    connclient.connect(ip, port, timeout_ms): the newly constructed `client`, at
    address h, is told to connect and is registered at the end when Connect
    returns 0; otherwise it is deleted and the call fails (None).
  */
  function LuaConnect(s: Script, h: Handle, client: Conn, ip: string, port: int, timeoutMs: int): (r: (Script, Option<Handle>))
    requires Unstarted(client)
  {
    var (c, ret) := ConnPolicy.Connect(client, ip, port, timeoutMs);
    if ret != 0 then (s, None)
    else (Script(s.handles + [h], s.clients[h := c]), Some(h))
  }

  /** Connect never fails, so every call registers its client at the end, with a connect job queued. */
  lemma ConnectRegisters(s: Script, h: Handle, client: Conn, ip: string, port: int, timeoutMs: int)
    requires WellFormed(s) && h != Null && Unstarted(client)
    ensures var r := LuaConnect(s, h, client, ip, port, timeoutMs);
            && r.1 == Some(h) && r.0.handles == s.handles + [h]
            && Valid(r.0.handles, h) && WellFormed(r.0)
            && h in r.0.clients && r.0.clients[h].worker.jobs == [ConnectJob(ip, port, timeoutMs)]
            && r.0.clients[h].worker.running
  {
    var r := LuaConnect(s, h, client, ip, port, timeoutMs);
    assert r.0.handles[|s.handles|] == h;
  }

  /**
    connclient.close(conn): an unregistered handle raises a script error
    (the second component is true). Otherwise the client is told to close
    and its handle is unregistered; the client itself is not freed.
  */
  function LuaClose(s: Script, h: Handle): (r: (Script, bool))
    requires WellFormed(s)
    ensures WellFormed(r.0)
  {
    if !Valid(s.handles, h) then (s, true)
    else
      var reg := Remove(s.handles, h);
      RemoveSpec(s.handles, h);
      (Script(reg, s.clients[h := ConnPolicy.Close(s.clients[h])]), false)
  }

  /** Closing a valid handle unregisters it once and queues a close job on its client. */
  lemma CloseUnregisters(s: Script, h: Handle)
    requires WellFormed(s) && Valid(s.handles, h)
    ensures var r := LuaClose(s, h);
            && !r.1 && multiset(r.0.handles) == multiset(s.handles) - multiset{h}
            && r.0.clients[h].worker.jobs == s.clients[h].worker.jobs + [CloseJob]
  {
    RemoveSpec(s.handles, h);
  }

  /** An invalid handle changes nothing and reports the error. */
  lemma CloseRejectsInvalid(s: Script, h: Handle)
    requires WellFormed(s) && !Valid(s.handles, h)
    ensures LuaClose(s, h) == (s, true)
  {
  }

  /** Connecting and then closing the new handle leaves the registry as it was. */
  lemma ConnectThenClose(s: Script, h: Handle, client: Conn, ip: string, port: int, timeoutMs: int)
    requires WellFormed(s) && h != Null && h !in s.handles && Unstarted(client)
    ensures var c := LuaConnect(s, h, client, ip, port, timeoutMs).0;
            var r := LuaClose(c, h);
            !r.1 && r.0.handles == s.handles && !Valid(r.0.handles, h)
  {
    ConnectRegisters(s, h, client, ip, port, timeoutMs);
    RemoveLast(s.handles, h);
  }
}
