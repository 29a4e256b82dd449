/**
 * The application's state and its handlers: the signed-in role, the
 * catalog, the order queue and the saved history, with what happens on
 * start-up (restoring the role, loading the configuration and the saved
 * history), adding and removing queue items, submitting the queue as a
 * batch, clearing and importing history, and editing the catalog.
 * Storage, the network, dialogs and the clock are parameters.
 */
module App {
  import opened Wrappers
  import opened Strings
  import opened Num
  import opened Catalog
  import opened Records
  import opened Ledger
  import opened History
  import Settings

  /** `queue.filter(i => i.id !== id)`. */
  function Without(items: seq<LineItem>, id: string): (r: seq<LineItem>)
    ensures |r| <= |items|
    ensures forall x :: x in r <==> x in items && x.id != id
    ensures (forall j :: 0 <= j < |items| ==> items[j].id != id) ==> r == items
  {
    if |items| == 0 then []
    else if items[0].id == id then Without(items[1..], id)
    else [items[0]] + Without(items[1..], id)
  }

  /** Filtering keeps the order: the kept items of a + b are a's kept items, then b's. */
  lemma {:induction false} WithoutConcat(a: seq<LineItem>, b: seq<LineItem>, id: string)
    ensures Without(a + b, id) == Without(a, id) + Without(b, id)
  {
    if |a| == 0 {
      assert a + b == b;
    } else {
      assert (a + b)[1..] == a[1..] + b;
      WithoutConcat(a[1..], b, id);
    }
  }

  /** Removing an id again changes nothing. */
  lemma {:induction false} WithoutIdempotent(items: seq<LineItem>, id: string)
    ensures Without(Without(items, id), id) == Without(items, id)
  {
    var r := Without(items, id);
    assert forall j :: 0 <= j < |r| ==> r[j].id != id by {
      forall j | 0 <= j < |r|
        ensures r[j].id != id
      {
        assert r[j] in r;
      }
    }
  }

  /** Removing the item just added, when its id is new, restores the queue. */
  lemma RemoveUndoesAdd(items: seq<LineItem>, x: LineItem)
    requires forall j :: 0 <= j < |items| ==> items[j].id != x.id
    ensures Without(items + [x], x.id) == items
  {
    WithoutConcat(items, [x], x.id);
    assert [x][1..] == [];
  }

  /**
   * The batch a submit creates: id is the millisecond clock as digits,
   * its items are the queue, its count is the queue length and each
   * total is the sum of that field over the items.
   */
  function NewBatch(items: seq<LineItem>, now: nat, date: string): (b: Batch)
    ensures b.id == NatText(now) && b.date == date && b.items == items && b.itemCount == |items|
    ensures Value(b.totalNagquPrice) == Sum(items, NagquPrice)
    ensures Value(b.totalChannelPrice) == Sum(items, ChannelPrice)
    ensures Value(b.totalRetail) == Sum(items, RetailPrice)
  {
    TotalIsSum(items, NagquPrice);
    TotalIsSum(items, ChannelPrice);
    TotalIsSum(items, RetailPrice);
    Batch(NatText(now), date, items, Total(items, NagquPrice), Total(items, ChannelPrice),
      Total(items, RetailPrice), |items|)
  }

  /** The totals the queue bar shows are the totals the submitted batch receives. */
  lemma QueueTotalsBecomeBatchTotals(items: seq<LineItem>, role: Role, now: nat, date: string)
    requires |items| > 0
    ensures var v := QueueView(items, role).value;
      var b := NewBatch(items, now, date);
      && Value(v.retail) == Value(b.totalRetail)
      && (v.nagqu.Some? ==> Value(v.nagqu.value) == Value(b.totalNagquPrice))
      && (v.channel.Some? ==> Value(v.channel.value) == Value(b.totalChannelPrice))
  {
  }

  /** The saved role read at start-up: only "admin" and "zwz" are adopted. */
  function StoredRole(stored: Option<string>): (r: Option<Role>)
    ensures r == Some(Admin) <==> stored == Some("admin")
    ensures r == Some(Zwz) <==> stored == Some("zwz")
    ensures r != Some(Guest)
  {
    if stored == Some("admin") then Some(Admin)
    else if stored == Some("zwz") then Some(Zwz)
    else None
  }

  /** A configuration field as the server's JSON gives it: absent or falsy, some other value, or an array. */
  datatype ListField<T> = Absent | NotAList | List(items: seq<T>)

  /**
   * The configuration fetched at start-up: `Unavailable` when the request
   * fails, the response is not OK or its body is not JSON.
   */
  datatype ConfigPayload =
    | Unavailable
    | Received(specs: ListField<ProductSpec>, bottleRules: Option<seq<BottleRule>>)

  /** The shape check: specs must be an array (an empty one is accepted) and bottleRules present. */
  function AcceptedConfig(p: ConfigPayload): (r: Option<AppData>)
    ensures r.Some? <==> p.Received? && p.specs.List? && p.bottleRules.Some?
    ensures r.Some? ==> r.value == AppData(p.specs.items, p.bottleRules.value)
  {
    match p
    case Received(List(specs), Some(rules)) => Some(AppData(specs, rules))
    case _ => None
  }

  /** The saved history: nothing (or the empty string) saved, text that is not JSON, or the parsed batches. */
  datatype SavedHistory = NothingSaved | NotJson | Parsed(batches: seq<Batch>)

  class Session {
    var role: Role
    var data: AppData
    var queue: seq<LineItem>
    var history: seq<Batch>

    /** The initial state: a guest, the default catalog, empty queue and history. */
    constructor ()
      ensures role == Guest && data == DefaultData && queue == [] && history == []
    {
      role := Guest;
      data := DefaultData;
      queue := [];
      history := [];
    }

    /** Start-up: adopt the stored role when it is one of the two known roles. */
    method RestoreRole(stored: Option<string>)
      modifies this
      ensures StoredRole(stored).Some? ==> role == StoredRole(stored).value
      ensures StoredRole(stored).None? ==> role == old(role)
      ensures data == old(data) && queue == old(queue) && history == old(history)
    {
      var r := StoredRole(stored);
      if r.Some? {
        role := r.value;
      }
    }

    /** Start-up: replace the catalog by the server's configuration when it passes the shape check. */
    method LoadConfig(p: ConfigPayload)
      modifies this
      ensures data == if AcceptedConfig(p).Some? then AcceptedConfig(p).value else old(data)
      ensures role == old(role) && queue == old(queue) && history == old(history)
    {
      var c := AcceptedConfig(p);
      if c.Some? {
        data := c.value;
      }
    }

    /** Start-up: restore the saved history; text that does not parse leaves it as it is. */
    method RestoreHistory(saved: SavedHistory)
      modifies this
      ensures saved.Parsed? ==> history == saved.batches
      ensures !saved.Parsed? ==> history == old(history)
      ensures role == old(role) && data == old(data) && queue == old(queue)
    {
      if saved.Parsed? {
        history := saved.batches;
      }
    }

    method Login(r: Role)
      requires r != Guest
      modifies this
      ensures role == r
      ensures data == old(data) && queue == old(queue) && history == old(history)
    {
      role := r;
    }

    method Logout()
      modifies this
      ensures role == Guest
      ensures data == old(data) && queue == old(queue) && history == old(history)
    {
      role := Guest;
    }

    /** The calculator's "add": the item goes to the end of the queue. */
    method AddItem(item: LineItem)
      modifies this
      ensures queue == old(queue) + [item]
      ensures role == old(role) && data == old(data) && history == old(history)
    {
      queue := queue + [item];
    }

    /** The queue's "remove": every item with that id goes, the rest keep their order. */
    method RemoveItem(id: string)
      modifies this
      ensures queue == Without(old(queue), id)
      ensures role == old(role) && data == old(data) && history == old(history)
    {
      queue := Without(queue, id);
    }

    /**
     * Submit: refused when the queue is empty (the queue bar, and with it
     * the button, is not shown) or the user does not confirm; otherwise
     * the batch is put in front of the history and the queue is emptied.
     */
    method Submit(confirmed: bool, now: nat, date: string) returns (submitted: bool)
      modifies this
      ensures submitted <==> confirmed && |old(queue)| > 0
      ensures submitted ==> history == [NewBatch(old(queue), now, date)] + old(history) && queue == []
      ensures !submitted ==> history == old(history) && queue == old(queue)
      ensures role == old(role) && data == old(data)
    {
      if |queue| == 0 || !confirmed {
        return false;
      }
      history := [NewBatch(queue, now, date)] + history;
      queue := [];
      return true;
    }

    /** The history screen's "clear", after the user confirms. */
    method ClearHistory(confirmed: bool)
      modifies this
      ensures history == if confirmed then [] else old(history)
      ensures role == old(role) && data == old(data) && queue == old(queue)
    {
      if confirmed {
        history := [];
      }
    }

    /** The history screen's import: the outcome of the merge, and the merged history when there was one. */
    method ImportHistory(payload: ImportPayload, confirmed: bool) returns (o: ImportOutcome)
      modifies this
      ensures o == ImportMerge(old(history), payload, confirmed)
      ensures history == if o.Merged? then o.history else old(history)
      ensures role == old(role) && data == old(data) && queue == old(queue)
    {
      o := ImportMerge(history, payload, confirmed);
      if o.Merged? {
        history := o.history;
      }
    }

    /** An edit on the settings screen, which only a signed-in role sees. */
    method EditSpec(i: nat, f: Settings.SpecField, v: Decimal) returns (applied: bool)
      requires i < |data.specs|
      modifies this
      ensures applied <==> old(role) != Guest
      ensures data == if applied then Settings.UpdateSpec(old(data), i, f, v) else old(data)
      ensures role == old(role) && queue == old(queue) && history == old(history)
    {
      if role == Guest {
        return false;
      }
      data := Settings.UpdateSpec(data, i, f, v);
      return true;
    }

    /** A bottle-rule edit on the settings screen. */
    method EditRule(i: nat, f: Settings.RuleField, v: int) returns (applied: bool)
      requires i < |data.bottleRules|
      modifies this
      ensures applied <==> old(role) != Guest
      ensures data == if applied then Settings.UpdateRule(old(data), i, f, v) else old(data)
      ensures role == old(role) && queue == old(queue) && history == old(history)
    {
      if role == Guest {
        return false;
      }
      data := Settings.UpdateRule(data, i, f, v);
      return true;
    }
  }
}
