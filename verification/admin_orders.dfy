/** The administrators' order list (app/api/admin/orders/route.ts): one page of all
    orders, newest id first, behind the administrator gate. */
module AdminOrders {
  import opened Wrappers
  import opened Envelope
  import opened Schema
  import opened Db
  import opened Auth
  import opened Paging

  /** The page's rows. */
  function AdminOrderRows(orders: seq<Order>, ids: seq<nat>): (rows: seq<Payload>)
    requires forall i :: 0 <= i < |ids| ==> ids[i] < |orders|
    ensures |rows| == |ids|
    ensures forall i :: 0 <= i < |ids| ==> rows[i] == AdminOrderRow(ids[i], orders[ids[i]])
  {
    seq(|ids|, i requires 0 <= i < |ids| => AdminOrderRow(ids[i], orders[ids[i]]))
  }

  /** GET: a non-administrator is turned away before the read; otherwise one page of
      orders by descending id with its pagination block. `readError` is the read's
      failure, if it fails. */
  method ListAdminOrders(db: Store, header: Option<string>, verify: Verifier,
                         page: Option<int>, pageSize: Option<int>, readError: Option<string>)
    returns (r: Reply)
    ensures RequireAdmin(header, verify).Rejected? ==> r == RequireAdmin(header, verify).reply
    ensures RequireAuth(header, verify).Authorized? && !IsAdministrator(RequireAuth(header, verify).payload) ==>
      r == Failure(403, "Forbidden: administrator only")
    ensures RequireAdmin(header, verify).Authorized? && readError.Some? ==> r == Failure(500, readError.value)
    ensures RequireAdmin(header, verify).Authorized? && readError.None? ==>
      var p := ClampPage(page);
      var size := AdminPageSize(pageSize);
      var total := |db.orders|;
      var ids := PageIds(total, PageRange(p, size).from, size);
      && r.status == 200 && r.body.PagedJson?
      && r.body.page == PaginatedSuccess(AdminOrderRows(db.orders, ids),
                                         Pagination(p, size, total, AdminTotalPages(total, size)),
                                         "Orders fetched successfully")
      && (forall i, j :: 0 <= i < j < |ids| ==> ids[i] > ids[j])
  {
    var auth := RequireAdmin(header, verify);
    if IsAuthFailed(auth) {
      return auth.reply;
    }
    var p := ClampPage(page);
    var size := AdminPageSize(pageSize);
    var range := PageRange(p, size);
    if readError.Some? {
      return Failure(500, readError.value);
    }
    var total := |db.orders|;
    var rows := AdminOrderRows(db.orders, PageIds(total, range.from, size));
    r := Reply(200, PagedJson(PaginatedSuccess(rows, Pagination(p, size, total, AdminTotalPages(total, size)),
                                               "Orders fetched successfully")));
  }
}
