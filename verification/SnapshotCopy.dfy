/** The deep copies GetSnapshot makes (state/manager.go), on entries as the heap
    objects they are: an entry, its deletion time and its rule bytes. */
module SnapshotCopy {
  import opened TunnelStore

  class Stamp {
    var at: int

    constructor (at: int)
      ensures this.at == at
    {
      this.at := at;
    }
  }

  datatype EntryView = EntryView(containerID: string, serviceName: string, hostname: string, policy: Policy,
                                 status: Status, deletedAt: Option<int>, ruleJSON: Option<seq<char>>)

  class TunnelEntry {
    var containerID: string
    var serviceName: string
    var hostname: string
    var policy: Policy
    var status: Status
    var deletedAt: Stamp?
    var ruleJSON: array?<char>

    constructor (v: EntryView)
      ensures View() == v && fresh(Parts() - {this})
    {
      containerID, serviceName, hostname, policy, status := v.containerID, v.serviceName, v.hostname, v.policy, v.status;
      deletedAt, ruleJSON := null, null;
      new;
      if v.deletedAt.Some? {
        deletedAt := new Stamp(v.deletedAt.value);
      }
      if v.ruleJSON.Some? {
        var s := v.ruleJSON.value;
        ruleJSON := new char[|s|](i requires 0 <= i < |s| => s[i]);
        assert ruleJSON[..] == s;
      }
    }

    /** Every object that belongs to the entry. */
    ghost function Parts(): set<object>
      reads this
    {
      {this} + (if deletedAt == null then {} else {deletedAt}) + (if ruleJSON == null then {} else {ruleJSON})
    }

    /** The entry as a value. */
    function View(): EntryView
      reads this, deletedAt, ruleJSON
    {
      EntryView(containerID, serviceName, hostname, policy, status,
                if deletedAt == null then None else Some(deletedAt.at),
                if ruleJSON == null then None else Some(ruleJSON[..]))
    }

    /** The loop body of GetSnapshot: a copy that shares nothing. */
    method Copy() returns (c: TunnelEntry)
      ensures fresh(c.Parts()) && c.View() == View()
    {
      c := new TunnelEntry(View());
    }

    /** transitionStoppedLocked, on the entry in place. */
    method Stop(policy: Policy, now: int)
      modifies this
      ensures View() == old(View()).(policy := policy, deletedAt := Some(now),
                                     status := if policy == Immediate then PendingDelete else Retaining)
      ensures fresh(Parts() - old(Parts()))
    {
      deletedAt := new Stamp(now);
      this.policy := policy;
      status := if policy == Immediate then PendingDelete else Retaining;
    }
  }

  type Objects = map<string, TunnelEntry>

  /** GetSnapshot's entry loop: the copies hold the same values and share no object
      with anything that existed before, nor with one another. */
  method CopyEntries(m: Objects) returns (copy: Objects)
    ensures copy.Keys == m.Keys
    ensures forall k :: k in copy ==> fresh(copy[k].Parts()) && copy[k].View() == old(m[k].View())
    ensures forall j, k :: j in copy && k in copy && j != k ==> copy[j].Parts() !! copy[k].Parts()
  {
    copy := map[];
    var todo := m.Keys;
    ghost var made: set<object> := {};
    while todo != {}
      invariant todo <= m.Keys && copy.Keys == m.Keys - todo && fresh(made)
      invariant forall k :: k in copy ==> copy[k].Parts() <= made && copy[k].View() == old(m[k].View())
      invariant forall j, k :: j in copy && k in copy && j != k ==> copy[j].Parts() !! copy[k].Parts()
      decreases todo
    {
      var k :| k in todo;
      var c := CopyOne(m[k], made);
      made := made + c.Parts();
      copy := copy[k := c];
      todo := todo - {k};
    }
  }

  method CopyOne(e: TunnelEntry, ghost made: set<object>) returns (c: TunnelEntry)
    ensures fresh(c.Parts()) && c.View() == e.View() && c.Parts() !! made
  {
    c := e.Copy();
  }

  /** A snapshot is unaliased: stopping any entry in place afterwards, before the
      encoder has run, changes nothing in it. */
  method SnapshotThenStop(m: Objects, k: string, policy: Policy, now: int) returns (copy: Objects)
    requires k in m
    modifies m[k]
    ensures copy.Keys == m.Keys && forall j :: j in m ==> copy[j].View() == old(m[j].View())
    ensures m[k].View().status != Active
  {
    copy := CopyEntries(m);
    StopKeeps(m[k], copy, policy, now);
  }

  /** An in-place stop leaves every entry of which it shares no object as it is. */
  method StopKeeps(e: TunnelEntry, others: Objects, policy: Policy, now: int)
    requires forall j :: j in others ==> e !in others[j].Parts()
    modifies e
    ensures e.View().status != Active
    ensures forall j :: j in others ==> others[j].View() == old(others[j].View())
  {
    e.Stop(policy, now);
  }
}
