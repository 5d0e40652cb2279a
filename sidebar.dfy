/** The chat-history sidebar of frontend/src/components/Sidebar.jsx: the list
    of sessions it shows, the effect that re-reads that list whenever the
    selected session changes, and the delete handler. The network replies
    and the answer to the confirmation dialog are parameters; the requests
    the component sends are kept in a ghost log. */
module SessionSidebar {
  import opened Common
  import AssistantUI

  /** One element of the array `GET /history` returns. */
  datatype SessionSummary = SessionSummary(id: string, title: string)

  /** The outcome of `GET /history`: an ok response with its decoded body,
      a response that is not ok, or a fetch that threw. */
  datatype HistoryListReply = ListOk(data: seq<SessionSummary>) | ListNotOk | ListThrew

  /** The outcome of `DELETE /history/<id>`: an ok response, a response that
      is not ok (with the `error` field of its body, None when that is
      missing), or a fetch or body parse that threw. */
  datatype DeleteReply = Deleted | DeleteRefused(error: Option<string>) | DeleteThrew

  /** A request the sidebar sends. */
  datatype SidebarRequest = HistoryListRequest | DeleteRequest(session: string)

  const DeleteFailedPrefix := "Failed to delete chat: "
  const DeleteRetryAlert := "Failed to delete chat. Please try again."

  /** The alert `handleDelete` raises for a delete reply: none on success,
      the server's error (or "Unknown error") on a refusal, and a retry
      prompt when the request threw. */
  function DeleteAlert(reply: DeleteReply): (r: Option<string>)
    ensures r.None? <==> reply.Deleted?
    ensures reply.DeleteRefused? && reply.error.Some? && reply.error.value != "" ==>
              r == Some(DeleteFailedPrefix + reply.error.value)
    ensures reply.DeleteRefused? && (reply.error.None? || reply.error == Some("")) ==>
              r == Some(DeleteFailedPrefix + "Unknown error")
    ensures reply.DeleteThrew? ==> r == Some(DeleteRetryAlert)
  {
    match reply
    case Deleted => None
    case DeleteRefused(error) => Some(DeleteFailedPrefix + AssistantUI.OrElse(error, "Unknown error"))
    case DeleteThrew => Some(DeleteRetryAlert)
  }

  /** The selection after a delete: a successful delete of the selected
      session clears it; anything else leaves it. */
  function SelectionAfterDelete(current: Option<string>, sessionId: string, reply: DeleteReply): (r: Option<string>)
    ensures reply.Deleted? ==> r != Some(sessionId)
    ensures r != current <==> reply.Deleted? && current == Some(sessionId)
    ensures r == current || r.None?
  {
    if reply.Deleted? && current == Some(sessionId) then None else current
  }

  /** The sidebar's state: `sessions` and the `currentSessionId` prop that
      the parent page owns and `onSelectSession` sets. */
  class Sidebar {
    var sessions: seq<SessionSummary>
    var currentSessionId: Option<string>
    ghost var requests: seq<SidebarRequest>

    /** Mounting: the list starts empty, and the effect runs once with the
        initial selection. */
    constructor (current: Option<string>, reply: HistoryListReply)
      ensures currentSessionId == current
      ensures requests == [HistoryListRequest]
      ensures sessions == (if reply.ListOk? then reply.data else [])
    {
      sessions := [];
      currentSessionId := current;
      requests := [];
      new;
      FetchHistory(reply);
    }

    /** `fetchHistory`: one request; the list is replaced only by an ok
        reply, and a failure leaves the previous list on screen. */
    method FetchHistory(reply: HistoryListReply)
      modifies this
      ensures requests == old(requests) + [HistoryListRequest]
      ensures reply.ListOk? ==> sessions == reply.data
      ensures !reply.ListOk? ==> sessions == old(sessions)
      ensures currentSessionId == old(currentSessionId)
    {
      requests := requests + [HistoryListRequest];
      if reply.ListOk? {
        sessions := reply.data;
      }
    }

    /** `onSelectSession(id)` followed by the effect keyed on
        `currentSessionId`: the list is re-read only when the selection
        actually changes. */
    method SelectSession(session: Option<string>, reply: HistoryListReply)
      modifies this
      ensures currentSessionId == session
      ensures session != old(currentSessionId) ==>
                && requests == old(requests) + [HistoryListRequest]
                && sessions == (if reply.ListOk? then reply.data else old(sessions))
      ensures session == old(currentSessionId) ==>
                requests == old(requests) && sessions == old(sessions)
    {
      if session != currentSessionId {
        currentSessionId := session;
        FetchHistory(reply);
      }
    }

    /** `handleDelete(sessionId)`. A declined confirmation sends nothing.
        Otherwise one DELETE request. On success the handler re-reads the
        list (`refresh`) and, when the deleted session was the selected one,
        clears the selection; the selection effect then runs after the
        handler and re-reads the list a second time (`effectRefresh`), whose
        reply is taken to arrive last. A refused or thrown delete changes
        nothing but raises the returned alert. */
    method HandleDelete(sessionId: string, confirmed: bool, reply: DeleteReply,
                        refresh: HistoryListReply, effectRefresh: HistoryListReply)
      returns (alert: Option<string>)
      modifies this
      ensures !confirmed ==>
                && alert.None?
                && requests == old(requests) && sessions == old(sessions)
                && currentSessionId == old(currentSessionId)
      ensures confirmed ==> alert == DeleteAlert(reply)
      ensures confirmed ==> currentSessionId == SelectionAfterDelete(old(currentSessionId), sessionId, reply)
      ensures confirmed && reply.Deleted? && old(currentSessionId) == Some(sessionId) ==>
                && requests == old(requests) + [DeleteRequest(sessionId), HistoryListRequest, HistoryListRequest]
                && sessions == (if effectRefresh.ListOk? then effectRefresh.data
                                else if refresh.ListOk? then refresh.data
                                else old(sessions))
      ensures confirmed && reply.Deleted? && old(currentSessionId) != Some(sessionId) ==>
                && requests == old(requests) + [DeleteRequest(sessionId), HistoryListRequest]
                && sessions == (if refresh.ListOk? then refresh.data else old(sessions))
      ensures confirmed && !reply.Deleted? ==>
                requests == old(requests) + [DeleteRequest(sessionId)] && sessions == old(sessions)
    {
      if !confirmed {
        return None;
      }
      requests := requests + [DeleteRequest(sessionId)];
      alert := DeleteAlert(reply);
      if reply.Deleted? {
        var wasSelected := currentSessionId == Some(sessionId);
        FetchHistory(refresh);
        if wasSelected {
          SelectSession(None, effectRefresh);
        }
      }
    }
  }

  /** A sidebar mounted on a selected session, whatever the mount's history
      reply: after the session is deleted and the handler's re-read
      succeeds, it shows the effect's re-read when that one succeeds and
      the handler's otherwise, no alert is raised and nothing is selected. */
  method DeleteThenShow(sessionId: string, mount: HistoryListReply, listed: seq<SessionSummary>,
                        effectRefresh: HistoryListReply)
    returns (shown: seq<SessionSummary>, selected: Option<string>, alert: Option<string>)
    ensures shown == (if effectRefresh.ListOk? then effectRefresh.data else listed)
    ensures selected.None? && alert.None?
  {
    var sidebar := new Sidebar(Some(sessionId), mount);
    alert := sidebar.HandleDelete(sessionId, true, Deleted, ListOk(listed), effectRefresh);
    shown := sidebar.sessions;
    selected := sidebar.currentSessionId;
  }
}
