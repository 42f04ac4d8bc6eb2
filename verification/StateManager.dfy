/** controller/state_manager.py: the controller's mirror, one slot per worker and one
    state per tab. */
module StateManager {
  import opened Strings
  import opened Dom
  import opened Differ

  const CONNECTED := "connected"
  const DISCONNECTED := "disconnected"
  const CRASHED := "crashed"

  datatype Tab = Tab(url: string, title: string, html: seq<Node>, version: nat, stale: bool)

  /** `order` is the insertion order of the tab dictionary. */
  datatype Slot = Slot(status: string, active: string, order: seq<string>, tabs: map<string, Tab>,
                       snapshots: nat, diffs: nat)

  /** The worker-scoped messages that touch a slot. An update's URL is not among its
      fields: its constructor drops it. */
  datatype Msg =
    | Snapshot(tab: string, version: nat, url: string, title: string, html: seq<Node>)
    | Update(tab: string, base: nat, version: nat, ops: seq<Op>)
    | TabOpened(tab: string, title: string)
    | TabClosed(tab: string)
    | Status(status: string)

  const NEW_SLOT := Slot(DISCONNECTED, "", [], map[], 0, 0)

  function Staled(tabs: map<string, Tab>): map<string, Tab> {
    map t | t in tabs :: tabs[t].(stale := true)
  }

  function Without(order: seq<string>, t: string): seq<string> {
    if order == [] then [] else (if order[0] == t then [] else [order[0]]) + Without(order[1..], t)
  }

  function Put(s: Slot, t: string, tab: Tab): Slot {
    s.(order := if t in s.tabs then s.order else s.order + [t], tabs := s.tabs[t := tab])
  }

  function Accepts(s: Slot, m: Msg): bool
    requires m.Update?
  {
    m.tab in s.tabs && !s.tabs[m.tab].stale && s.tabs[m.tab].version == m.base
  }

  function Received(s: Slot, m: Msg): Slot {
    match m
    case Snapshot(t, v, url, title, html) =>
      Put(s, t, Tab(url, title, html, v, false)).(active := t, snapshots := s.snapshots + 1)
    case Update(t, _, v, ops) =>
      if t !in s.tabs then s
      else if !Accepts(s, m) then Put(s, t, s.tabs[t].(stale := true))
      else Put(s, t, s.tabs[t].(html := Applied(s.tabs[t].html, ops), version := v)).(diffs := s.diffs + 1)
    case TabOpened(t, title) =>
      var s1 := if t in s.tabs then s else Put(s, t, Tab("", title, [], 0, true));
      if s1.active == "" then s1.(active := t) else s1
    case TabClosed(t) =>
      var s1 := s.(order := Without(s.order, t), tabs := s.tabs - {t});
      if s.active != t then s1 else s1.(active := if s1.order == [] then "" else s1.order[0])
    case Status(st) =>
      s.(status := st, tabs := if st == DISCONNECTED then Staled(s.tabs) else s.tabs)
  }

  class ControllerStateManager {
    var slots: map<string, Slot>

    constructor ()
      ensures slots == map[]
    {
      slots := map[];
    }

    ghost function SlotOf(worker: string): Slot
      reads this
    {
      if worker in slots then slots[worker] else NEW_SLOT
    }

    method GetOrCreateSlot(worker: string) returns (slot: Slot)
      modifies this
      ensures slot == old(SlotOf(worker)) && slots == old(slots)[worker := slot]
    {
      if worker !in slots { slots := slots[worker := NEW_SLOT]; }
      slot := slots[worker];
      assert slots[worker := slot] == slots;
    }

    method ForgetWorker(worker: string)
      modifies this
      ensures slots == old(slots) - {worker}
    {
      if worker in slots { slots := slots - {worker}; }
    }

    method ApplyTabOpened(worker: string, tab: string, title: string)
      modifies this
      ensures slots == old(slots)[worker := Received(old(SlotOf(worker)), TabOpened(tab, title))]
      ensures tab in slots[worker].tabs && (tab != "" ==> slots[worker].active != "")
      ensures tab !in old(SlotOf(worker)).tabs ==>
        slots[worker].tabs[tab].stale && slots[worker].tabs[tab].title == title
    {
      var slot := GetOrCreateSlot(worker);
      if tab !in slot.tabs {
        slot := slot.(order := slot.order + [tab], tabs := slot.tabs[tab := Tab("", title, [], 0, true)]);
      }
      if slot.active == "" { slot := slot.(active := tab); }
      slots := slots[worker := slot];
    }

    method ApplyTabClosed(worker: string, tab: string)
      modifies this
      ensures slots == old(slots)[worker := Received(old(SlotOf(worker)), TabClosed(tab))]
      ensures slots[worker].tabs == old(SlotOf(worker)).tabs - {tab}
    {
      var slot := GetOrCreateSlot(worker);
      var order := RemoveFromOrder(slot.order, tab);
      var active := if slot.active != tab then slot.active else if order == [] then "" else order[0];
      slots := slots[worker := slot.(order := order, tabs := slot.tabs - {tab}, active := active)];
    }

    method ApplyFullSnapshot(worker: string, m: Msg) returns (applied: bool)
      requires m.Snapshot?
      modifies this
      ensures applied && slots == old(slots)[worker := Received(old(SlotOf(worker)), m)]
      ensures slots[worker].tabs == old(SlotOf(worker)).tabs[m.tab := Tab(m.url, m.title, m.html, m.version, false)]
      ensures slots[worker].active == m.tab
    {
      var slot := GetOrCreateSlot(worker);
      ghost var before := slot;
      if m.tab !in slot.tabs {
        slot := slot.(order := slot.order + [m.tab], tabs := slot.tabs[m.tab := Tab("", "", [], 0, true)]);
      }
      slot := slot.(active := m.tab);
      var tab := slot.tabs[m.tab].(version := m.version, url := m.url, title := m.title, html := m.html,
                                   stale := false);
      slot := slot.(tabs := slot.tabs[m.tab := tab], snapshots := slot.snapshots + 1);
      assert slot.tabs == before.tabs[m.tab := tab];
      slots := slots[worker := slot];
      applied := true;
    }

    method ApplyDomUpdate(worker: string, m: Msg) returns (applied: bool)
      requires m.Update?
      modifies this
      ensures applied == Accepts(old(SlotOf(worker)), m)
      ensures slots == old(slots)[worker := Received(old(SlotOf(worker)), m)]
      ensures !applied && m.tab in slots[worker].tabs ==> slots[worker].tabs[m.tab].stale
    {
      var slot := GetOrCreateSlot(worker);
      if m.tab !in slot.tabs { return false; }
      var tab := slot.tabs[m.tab];
      if tab.stale || tab.version != m.base {
        slots := slots[worker := slot.(tabs := slot.tabs[m.tab := tab.(stale := true)])];
        return false;
      }
      var html := ApplyDiff(tab.html, m.ops);
      tab := tab.(html := html, version := m.version);
      slots := slots[worker := slot.(tabs := slot.tabs[m.tab := tab], diffs := slot.diffs + 1)];
      applied := true;
    }

    method UpdateStatus(worker: string, status: string)
      modifies this
      ensures slots == old(slots)[worker := Received(old(SlotOf(worker)), Status(status))]
      ensures slots[worker].status == status
      ensures status == "disconnected" ==> forall t :: t in slots[worker].tabs ==> slots[worker].tabs[t].stale
    {
      var slot := GetOrCreateSlot(worker);
      slot := slot.(status := status);
      if status == DISCONNECTED {
        var tabs := StaleTabs(slot.tabs);
        slot := slot.(tabs := tabs);
      }
      slots := slots[worker := slot];
    }

    method MarkAllStale()
      modifies this
      ensures slots == map w | w in old(slots) :: old(slots)[w].(tabs := Staled(old(slots)[w].tabs))
    {
      var todo := slots.Keys;
      while todo != {}
        invariant slots.Keys == old(slots).Keys && todo <= slots.Keys
        invariant forall w :: w in slots ==>
          slots[w] == if w in todo then old(slots)[w] else old(slots)[w].(tabs := Staled(old(slots)[w].tabs))
      {
        var w :| w in todo;
        todo := todo - {w};
        var tabs := StaleTabs(slots[w].tabs);
        slots := slots[w := slots[w].(tabs := tabs)];
      }
    }
  }

  method RemoveFromOrder(order: seq<string>, t: string) returns (r: seq<string>)
    ensures r == Without(order, t)
  {
    r := [];
    for i := 0 to |order|
      invariant r + Without(order[i..], t) == Without(order, t)
    {
      DropHead(order, i);
      var kept := if order[i] == t then [] else [order[i]];
      Associate(r, kept, Without(order[i + 1..], t));
      r := r + kept;
    }
    assert order[|order|..] == [];
  }

  method StaleTabs(tabs: map<string, Tab>) returns (r: map<string, Tab>)
    ensures r == Staled(tabs)
  {
    r := tabs;
    var todo := tabs.Keys;
    while todo != {}
      invariant r.Keys == tabs.Keys && todo <= tabs.Keys
      invariant forall t :: t in r ==> r[t] == if t in todo then tabs[t] else tabs[t].(stale := true)
    {
      var t :| t in todo;
      todo := todo - {t};
      r := r[t := r[t].(stale := true)];
    }
  }
}
