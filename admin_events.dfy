/** The administrator's event list (frontend/src/pages/AdminEvents.jsx): the
    page state is a value that each step replaces. */
module AdminEvents {
  import opened Docs

  datatype AdminView = AdminView(events: seq<Doc>, loading: bool)

  const Initial := AdminView([], true)

  /** The mount effect: a failed request keeps the list as it was and clears `loading`. */
  function Loaded(view: AdminView, reply: ListReply): (r: AdminView)
    ensures !r.loading
    ensures reply.ListOk? ==> r.events == reply.events
    ensures reply.ListFailed? ==> r.events == view.events
  {
    match reply
    case ListOk(list) => AdminView(list, false)
    case ListFailed => view.(loading := false)
  }

  /** What a delete does: the new view, whether the request went out, and whether
      `events:updated` was broadcast. */
  datatype DeleteEffect = DeleteEffect(view: AdminView, requested: bool, broadcast: bool)

  /** `handleDelete`: `confirmed` is the answer to `window.confirm`, `deleted`
      whether the delete request succeeded. */
  function HandleDelete(view: AdminView, id: string, confirmed: bool, deleted: bool): (r: DeleteEffect)
    ensures r.requested <==> confirmed
    ensures r.broadcast <==> confirmed && deleted
    ensures !r.broadcast ==> r.view == view
    ensures r.broadcast ==> r.view == view.(events := WithoutId(view.events, id))
  {
    if !confirmed then DeleteEffect(view, false, false)
    else if deleted then DeleteEffect(view.(events := WithoutId(view.events, id)), true, true)
    else DeleteEffect(view, true, false)
  }

  /** A successful delete removes exactly the events carrying the id and keeps the
      rest in their order: deleting from a split list deletes from each part. */
  lemma DeleteRemovesExactly(view: AdminView, id: string, before: seq<Doc>, after: seq<Doc>)
    requires view.events == before + after
    ensures var r := HandleDelete(view, id, true, true).view.events;
      && r == WithoutId(before, id) + WithoutId(after, id)
      && (forall k :: 0 <= k < |r| ==> DocId(r[k]) != id)
      && (forall k :: 0 <= k < |view.events| && DocId(view.events[k]) != id ==> view.events[k] in r)
  {
    WithoutIdDistributes(before, after, id);
  }

  /** A failed first load shows an empty list. */
  lemma FailedFirstLoadIsEmpty()
    ensures Loaded(Initial, ListFailed) == AdminView([], false)
  {
  }
}
