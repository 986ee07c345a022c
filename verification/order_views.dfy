/** What the admin order card (components/admin/order-card.tsx) and the admin order
    detail page (components/admin/order-detail.tsx) derive from an order row: the
    one-line address, the payment and shipment labels, the status choices and the
    timeline. A text column that may be `null` is an `Option<string>`; JavaScript's
    truthiness test (`filter(Boolean)`, `x && ...`) drops both `null` and `''`. */
module OrderViews {
  import opened Wrappers
  import opened Strings
  import opened Schema
  import Query

  /** A value JavaScript treats as true: present and not the empty string. */
  predicate Truthy(s: Option<string>) {
    s.Some? && s.value != ""
  }

  /** `.filter(Boolean)` on a list of nullable texts. */
  function Present(parts: seq<Option<string>>): (r: seq<string>)
    ensures |r| <= |parts|
    ensures forall i :: 0 <= i < |r| ==> r[i] != "" && Some(r[i]) in parts
    ensures r == [] <==> forall i :: 0 <= i < |parts| ==> !Truthy(parts[i])
    ensures (forall i :: 0 <= i < |parts| ==> Truthy(parts[i])) ==>
      |r| == |parts| && forall i :: 0 <= i < |r| ==> r[i] == parts[i].value
  {
    if parts == [] then []
    else if Truthy(parts[0]) then [parts[0].value] + Present(parts[1..])
    else
      assert forall i :: 1 <= i < |parts| ==> parts[i] == parts[1..][i - 1];
      Present(parts[1..])
  }

  /** The filter keeps the truthy parts in order: the `k`-th text kept is the value of
      the `k`-th truthy part. */
  lemma {:induction false} PresentKeepsOrder(parts: seq<Option<string>>)
    ensures var ids := Query.Matching(parts, Truthy); var r := Present(parts);
      |r| == |ids| && forall k :: 0 <= k < |r| ==> Truthy(parts[ids[k]]) && r[k] == parts[ids[k]].value
  {
    if parts != [] {
      var tail := parts[1..];
      PresentKeepsOrder(tail);
      var kt := Query.Matching(tail, Truthy);
      var rest := Present(tail);
      ShiftRest(parts, kt, rest);
      Query.MatchingFront(parts, Truthy);
      PresentFront(parts);
      PresentStep(parts, kt, rest, Present(parts), Query.Matching(parts, Truthy));
    }
  }

  lemma PresentFront(parts: seq<Option<string>>)
    requires parts != []
    ensures Present(parts) == (if Truthy(parts[0]) then [parts[0].value] else []) + Present(parts[1..])
  {
  }

  lemma ShiftRest(parts: seq<Option<string>>, kt: seq<nat>, rest: seq<string>)
    requires parts != []
    requires |rest| == |kt| && forall k :: 0 <= k < |rest| ==>
      kt[k] < |parts[1..]| && Truthy(parts[1..][kt[k]]) && rest[k] == parts[1..][kt[k]].value
    ensures forall k :: 0 <= k < |rest| ==>
      kt[k] < |parts| - 1 && Truthy(parts[kt[k] + 1]) && rest[k] == parts[kt[k] + 1].value
  {
  }

  /** Putting the first part back in front of what was kept of the others. */
  lemma PresentStep(parts: seq<Option<string>>, kt: seq<nat>, rest: seq<string>, r: seq<string>, kept: seq<nat>)
    requires parts != []
    requires |rest| == |kt| && forall k :: 0 <= k < |rest| ==>
      kt[k] < |parts| - 1 && Truthy(parts[kt[k] + 1]) && rest[k] == parts[kt[k] + 1].value
    requires r == (if Truthy(parts[0]) then [parts[0].value] else []) + rest
    requires kept == (if Truthy(parts[0]) then [0] else []) + Query.Shifted(kt)
    ensures |r| == |kept| && forall k :: 0 <= k < |r| ==>
      Truthy(parts[kept[k]]) && r[k] == parts[kept[k]].value
  {
    var n := if Truthy(parts[0]) then 1 else 0;
    forall k | 0 <= k < |r| ensures kept[k] < |parts| && Truthy(parts[kept[k]]) && r[k] == parts[kept[k]].value {
      if k >= n {
        assert r[k] == rest[k - n];
        assert kept[k] == kt[k - n] + 1;
      }
    }
  }

  /** The address columns of an order. */
  datatype Address = Address(
    address: Option<string>, city: Option<string>, state: Option<string>,
    postalCode: Option<string>, country: Option<string>)

  /** The non-empty segments of the one-line address, in order: street address,
      "city, state" (either alone if the other is missing), postal code, country. */
  function AddressSegments(a: Address): (segments: seq<string>)
    ensures |segments| <= 4
    ensures forall i :: 0 <= i < |segments| ==> segments[i] != ""
  {
    Present([a.address, Some(Join(Present([a.city, a.state]), ", ")), a.postalCode, a.country])
  }

  /** `shippingAddress` (order card, lines 25-32) and `fullAddress` (order detail,
      lines 49-56): the same expression on both pages. */
  function AddressLine(a: Address): (line: string)
    ensures line == "" <==> AddressSegments(a) == []
  {
    JoinEmpty(AddressSegments(a), ", ");
    Join(AddressSegments(a), ", ")
  }

  lemma {:induction false} JoinEnds(parts: seq<string>, sep: string)
    requires |parts| >= 1
    ensures parts[0] <= Join(parts, sep)
    ensures var j := Join(parts, sep); var last := parts[|parts| - 1];
      |last| <= |j| && j[|j| - |last|..] == last
  {
    if |parts| > 1 {
      JoinEnds(parts[1..], sep);
    }
  }

  lemma {:induction false} JoinEmpty(parts: seq<string>, sep: string)
    requires forall i :: 0 <= i < |parts| ==> parts[i] != ""
    ensures Join(parts, sep) == "" <==> parts == []
  {
    if parts != [] {
      JoinEnds(parts, sep);
    }
  }

  /** The city and state segment is there when either of the two is. */
  lemma CityStatePresent(a: Address)
    ensures Join(Present([a.city, a.state]), ", ") != "" <==> Truthy(a.city) || Truthy(a.state)
  {
    var cs := [a.city, a.state];
    var cityState := Present(cs);
    JoinEmpty(cityState, ", ");
    assert cityState == [] <==> forall i :: 0 <= i < 2 ==> !Truthy(cs[i]);
    if !Truthy(a.city) && !Truthy(a.state) {
      assert forall i :: 0 <= i < 2 ==> !Truthy(cs[i]);
    }
  }

  /** There are no segments exactly when every address column is missing or empty. */
  lemma NoSegments(a: Address)
    ensures AddressSegments(a) == [] <==>
      !Truthy(a.address) && !Truthy(a.city) && !Truthy(a.state) && !Truthy(a.postalCode) && !Truthy(a.country)
  {
    var parts := [a.address, Some(Join(Present([a.city, a.state]), ", ")), a.postalCode, a.country];
    CityStatePresent(a);
    assert AddressSegments(a) == [] <==> forall i :: 0 <= i < 4 ==> !Truthy(parts[i]);
    if !Truthy(parts[0]) && !Truthy(parts[1]) && !Truthy(parts[2]) && !Truthy(parts[3]) {
      assert forall i :: 0 <= i < 4 ==> !Truthy(parts[i]);
    }
  }

  /** The line begins with its first segment and ends with its last, so it never
      starts or ends with the separator unless a segment itself does; it is empty
      exactly when every address column is missing or empty. */
  lemma AddressLineShape(a: Address)
    ensures var segments := AddressSegments(a); var line := AddressLine(a);
      && (segments != [] ==> var last := segments[|segments| - 1];
            segments[0] <= line && |last| <= |line| && line[|line| - |last|..] == last)
      && (line == "" <==> !Truthy(a.address) && !Truthy(a.city) && !Truthy(a.state)
                          && !Truthy(a.postalCode) && !Truthy(a.country))
  {
    var segments := AddressSegments(a);
    NoSegments(a);
    JoinEmpty(segments, ", ");
    if segments != [] {
      JoinEnds(segments, ", ");
    }
  }

  lemma JoinTwo(a: string, b: string, sep: string)
    ensures Join([a, b], sep) == a + sep + b
  {
    JoinCons(a, [b], sep);
  }

  lemma JoinFour(a: string, b: string, c: string, d: string, sep: string)
    ensures Join([a, b, c, d], sep) == a + sep + b + sep + c + sep + d
  {
    JoinTwo(c, d, sep);
    assert [b, c, d] == [b] + [c, d];
    JoinCons(b, [c, d], sep);
    assert [a, b, c, d] == [a] + [b, c, d];
    JoinCons(a, [b, c, d], sep);
  }

  /** With every column filled in, every column is a segment, city and state sharing one. */
  lemma SegmentsComplete(a: Address)
    requires Truthy(a.address) && Truthy(a.city) && Truthy(a.state) && Truthy(a.postalCode) && Truthy(a.country)
    ensures AddressSegments(a) == [a.address.value, a.city.value + ", " + a.state.value, a.postalCode.value, a.country.value]
  {
    PresentTwo(a.city, a.state);
    JoinTwo(a.city.value, a.state.value, ", ");
    PresentFour(a.address, Some(a.city.value + ", " + a.state.value), a.postalCode, a.country);
  }

  /** The filter on a list that starts with a truthy part, and with a part that is not. */
  lemma PresentCons(p: Option<string>, rest: seq<Option<string>>)
    ensures Present([p] + rest) == (if Truthy(p) then [p.value] else []) + Present(rest)
  {
    assert ([p] + rest)[1..] == rest;
  }

  lemma PresentTwo(x: Option<string>, y: Option<string>)
    requires Truthy(x) && Truthy(y)
    ensures Present([x, y]) == [x.value, y.value]
  {
    PresentCons(y, []);
    PresentCons(x, [y]);
  }

  lemma PresentFour(w: Option<string>, x: Option<string>, y: Option<string>, z: Option<string>)
    requires Truthy(w) && Truthy(x) && Truthy(y) && Truthy(z)
    ensures Present([w, x, y, z]) == [w.value, x.value, y.value, z.value]
  {
    var parts := [w, x, y, z];
    forall i | 0 <= i < 4 ensures Truthy(parts[i]) { }
  }

  /** With every column filled in, the line lists them in the order address, city,
      state, postal code, country, separated by ", ". */
  lemma AddressLineComplete(a: Address)
    requires Truthy(a.address) && Truthy(a.city) && Truthy(a.state) && Truthy(a.postalCode) && Truthy(a.country)
    ensures AddressLine(a) ==
      a.address.value + ", " + a.city.value + ", " + a.state.value + ", " + a.postalCode.value + ", " + a.country.value
  {
    var sep := ", ";
    var street, city, state, postal, country := a.address.value, a.city.value, a.state.value, a.postalCode.value, a.country.value;
    SegmentsComplete(a);
    JoinFour(street, city + sep + state, postal, country, sep);
    Regroup(street, sep, city, state);
  }

  /** The filter keeps a truthy first part first, a truthy last part last and a truthy
      second-to-last part right before a truthy last one (`ids` and `r` name the
      positions and texts the filter keeps). */
  lemma PresentEnds(parts: seq<Option<string>>, ids: seq<nat>, r: seq<string>)
    requires |parts| >= 2 && ids == Query.Matching(parts, Truthy) && r == Present(parts)
    ensures var n := |parts|;
      && (Truthy(parts[0]) ==> r != [] && r[0] == parts[0].value)
      && (Truthy(parts[n - 1]) ==> r != [] && r[|r| - 1] == parts[n - 1].value)
      && (Truthy(parts[n - 2]) && Truthy(parts[n - 1]) ==>
            |r| >= 2 && r[|r| - 2] == parts[n - 2].value)
  {
    PresentKeepsOrder(parts);
    KeptEnds(parts, ids, r);
  }

  lemma KeptEnds(parts: seq<Option<string>>, ids: seq<nat>, r: seq<string>)
    requires |parts| >= 2
    requires forall k :: 0 <= k < |ids| ==> ids[k] < |parts|
    requires forall i :: 0 <= i < |parts| && Truthy(parts[i]) ==> i in ids
    requires forall k, l :: 0 <= k < l < |ids| ==> ids[k] < ids[l]
    requires |r| == |ids| && forall k :: 0 <= k < |r| ==> Truthy(parts[ids[k]]) && r[k] == parts[ids[k]].value
    ensures var n := |parts|;
      && (Truthy(parts[0]) ==> r != [] && r[0] == parts[0].value)
      && (Truthy(parts[n - 1]) ==> r != [] && r[|r| - 1] == parts[n - 1].value)
      && (Truthy(parts[n - 2]) && Truthy(parts[n - 1]) ==>
            |r| >= 2 && r[|r| - 2] == parts[n - 2].value)
  {
    IdsAtEnds(ids, |parts|);
  }

  /** In an increasing list of positions below `n`, a listed first position comes first
      and a listed last position comes last, right after a listed second-to-last one. */
  lemma IdsAtEnds(ids: seq<nat>, n: nat)
    requires n >= 2
    requires forall k :: 0 <= k < |ids| ==> ids[k] < n
    requires forall k, l :: 0 <= k < l < |ids| ==> ids[k] < ids[l]
    ensures 0 in ids ==> ids[0] == 0
    ensures n - 1 in ids ==> ids[|ids| - 1] == n - 1
    ensures n - 2 in ids && n - 1 in ids ==> |ids| >= 2 && ids[|ids| - 2] == n - 2
  {
    if n - 2 in ids && n - 1 in ids {
      var m :| 0 <= m < |ids| && ids[m] == n - 2;
      assert m < |ids| - 1;
    }
  }

  /** With only the city missing, the state stands alone between the street address
      and the postal code. */
  lemma AddressLineWithoutCity(a: Address)
    requires !Truthy(a.city)
    requires Truthy(a.address) && Truthy(a.state) && Truthy(a.postalCode) && Truthy(a.country)
    ensures AddressLine(a) ==
      a.address.value + ", " + a.state.value + ", " + a.postalCode.value + ", " + a.country.value
  {
    PresentCons(a.state, []);
    PresentCons(a.city, [a.state]);
    JoinOne(a.state.value, ", ");
    PresentFour(a.address, Some(a.state.value), a.postalCode, a.country);
    JoinFour(a.address.value, a.state.value, a.postalCode.value, a.country.value, ", ");
  }

  lemma JoinOne(a: string, sep: string)
    ensures Join([a], sep) == a
  {
  }

  lemma Regroup(street: string, sep: string, city: string, state: string)
    ensures street + sep + (city + sep + state) == street + sep + city + sep + state
  {
  }

  /** The dash the order detail page shows for a missing value. */
  const Dash := "\U{2014}"

  /** The order card's fallback for an empty address, written in the source as the
      three characters an em dash's UTF-8 bytes become when read as Windows-1252. */
  const CardFallback := "\U{E2}\U{20AC}\U{201D}"

  /** The card's address text: `shippingAddress || fallback`. */
  function CardAddressText(a: Address): (text: string)
    ensures text != ""
    ensures AddressLine(a) != "" ==> text == AddressLine(a)
    ensures AddressLine(a) == "" ==> text == CardFallback
  {
    if AddressLine(a) == "" then CardFallback else AddressLine(a)
  }

  /** The card's fallback is not the dash the detail page uses. */
  lemma CardFallbackIsNotTheDash()
    ensures |CardFallback| == 3 && |Dash| == 1 && CardFallback != Dash
  {
  }

  /** The payment label: `payment_method?.replace(/-/g, ' ') ?? '—'`. An empty text is
      not nullish and stays empty. */
  function PaymentLabel(paymentMethod: Option<string>): (caption: string)
    ensures paymentMethod.None? ==> caption == Dash
    ensures paymentMethod.Some? ==> |caption| == |paymentMethod.value| && '-' !in caption
    ensures paymentMethod.Some? ==> forall i :: 0 <= i < |caption| ==>
      caption[i] == if paymentMethod.value[i] == '-' then ' ' else paymentMethod.value[i]
  {
    if paymentMethod.None? then Dash else ReplaceAll(paymentMethod.value, '-', ' ')
  }

  /** The payment methods of the store (shared/enums/status.ts) have no dash and are
      shown as stored. */
  lemma PaymentMethodsShownAsStored(pm: string)
    requires pm in ["zelle", "cashapp", "bitcoin"]
    ensures PaymentLabel(Some(pm)) == pm
  {
    assert pm == "zelle" || pm == "cashapp" || pm == "bitcoin";
    assert '-' !in pm;
    ReplaceAbsent(pm, '-', ' ');
  }

  lemma ReplaceAbsent(s: string, x: char, y: char)
    requires x !in s
    ensures ReplaceAll(s, x, y) == s
  {
    var r := ReplaceAll(s, x, y);
    assert forall i :: 0 <= i < |s| ==> r[i] == s[i];
  }

  /** The shipment label: `shipment_method ?? shipment_methods?.code ?? '—'`, where
      `joinedCode` is the code of the joined shipment method, if the row carries one. */
  function ShipmentLabel(shipmentMethod: Option<string>, joinedCode: Option<string>): (caption: string)
    ensures shipmentMethod.Some? ==> caption == shipmentMethod.value
    ensures shipmentMethod.None? && joinedCode.Some? ==> caption == joinedCode.value
    ensures shipmentMethod.None? && joinedCode.None? ==> caption == Dash
  {
    if shipmentMethod.Some? then shipmentMethod.value
    else if joinedCode.Some? then joinedCode.value
    else Dash
  }

  /** `ORDER_STATUS_OPTIONS`. */
  const StatusOptions: seq<OrderStatus> := [Pending, Paid, Shipped, Delivered, Completed, Cancelled]

  /** The status choices are the six order statuses, each once, in lifecycle order, and
      their values on the wire are six different texts. */
  lemma StatusOptionsComplete()
    ensures |StatusOptions| == 6
    ensures forall s: OrderStatus :: s in StatusOptions
    ensures forall i, j :: 0 <= i < j < |StatusOptions| ==> StatusOptions[i] != StatusOptions[j]
    ensures forall i, j :: 0 <= i < j < |StatusOptions| ==>
      OrderStatusText(StatusOptions[i]) != OrderStatusText(StatusOptions[j])
  {
    forall s: OrderStatus ensures s in StatusOptions {
      match s
      case Pending => assert StatusOptions[0] == s;
      case Paid => assert StatusOptions[1] == s;
      case Shipped => assert StatusOptions[2] == s;
      case Delivered => assert StatusOptions[3] == s;
      case Completed => assert StatusOptions[4] == s;
      case Cancelled => assert StatusOptions[5] == s;
    }
    forall i, j | 0 <= i < j < |StatusOptions|
      ensures OrderStatusText(StatusOptions[i]) != OrderStatusText(StatusOptions[j])
    {
      var a, b := OrderStatusText(StatusOptions[i]), OrderStatusText(StatusOptions[j]);
      assert a[0] != b[0] || a[1] != b[1] || |a| != |b|;
    }
  }

  /** The request `handleStatusChange` sends: `{ id: String(order.id), status: value }`. */
  datatype StatusChange = StatusChange(id: string, status: string)

  /** The status change for a chosen value: the order's number in decimal, and the
      value as chosen; different orders never share an id. */
  function HandleStatusChange(orderId: nat, value: string): (change: StatusChange)
    ensures change.status == value
    ensures |change.id| >= 1 && forall i :: 0 <= i < |change.id| ==> IsDigit(change.id[i])
    ensures DecimalValue(change.id) == orderId
  {
    NatToStringRoundTrip(orderId);
    StatusChange(NatToString(orderId), value)
  }

  /** A line of the timeline card. */
  datatype Milestone = Milestone(caption: string, at: string)

  /** The timestamp columns of an order. */
  datatype Timestamps = Timestamps(
    creationDate: string, paidAt: Option<string>, shippedAt: Option<string>,
    deliveredAt: Option<string>, completedAt: Option<string>, cancelledAt: Option<string>)

  /** The labels of the optional milestones, in the order the card lists them. */
  const StepLabels: seq<string> := ["Paid", "Shipped", "Delivered", "Completed", "Cancelled"]

  function Stamps(t: Timestamps): (s: seq<Option<string>>)
    ensures |s| == |StepLabels|
  {
    [t.paidAt, t.shippedAt, t.deliveredAt, t.completedAt, t.cancelledAt]
  }

  /** The milestones of `labels` whose timestamp is truthy, in order. */
  function Shown(labels: seq<string>, stamps: seq<Option<string>>): (r: seq<Milestone>)
    requires |labels| == |stamps|
    ensures |r| <= |labels|
    ensures forall m :: m in r ==> exists k :: 0 <= k < |labels| && Truthy(stamps[k]) && m == Milestone(labels[k], stamps[k].value)
  {
    if labels == [] then []
    else
      var rest := Shown(labels[1..], stamps[1..]);
      assert forall m :: m in rest ==> exists k :: 0 <= k < |labels| && Truthy(stamps[k]) && m == Milestone(labels[k], stamps[k].value) by {
        forall m | m in rest
          ensures exists k :: 0 <= k < |labels| && Truthy(stamps[k]) && m == Milestone(labels[k], stamps[k].value)
        {
          var k :| 0 <= k < |labels| - 1 && Truthy(stamps[1..][k]) && m == Milestone(labels[1..][k], stamps[1..][k].value);
          assert labels[1..][k] == labels[k + 1] && stamps[1..][k] == stamps[k + 1];
        }
      }
      if Truthy(stamps[0]) then [Milestone(labels[0], stamps[0].value)] + rest else rest
  }

  lemma {:induction false} ShownExactly(labels: seq<string>, stamps: seq<Option<string>>, k: nat)
    requires |labels| == |stamps| && k < |labels|
    requires forall i, j :: 0 <= i < j < |labels| ==> labels[i] != labels[j]
    ensures Truthy(stamps[k]) ==> Milestone(labels[k], stamps[k].value) in Shown(labels, stamps)
    ensures !Truthy(stamps[k]) ==> forall m :: m in Shown(labels, stamps) ==> m.caption != labels[k]
  {
    var r := Shown(labels, stamps);
    if k > 0 {
      var tl, ts := labels[1..], stamps[1..];
      assert forall i, j :: 0 <= i < j < |tl| ==> tl[i] != tl[j] by {
        forall i, j | 0 <= i < j < |tl| ensures tl[i] != tl[j] {
          assert tl[i] == labels[i + 1] && tl[j] == labels[j + 1];
        }
      }
      ShownExactly(tl, ts, k - 1);
      assert tl[k - 1] == labels[k] && ts[k - 1] == stamps[k];
    }
    if !Truthy(stamps[k]) {
      forall m | m in r ensures m.caption != labels[k] {
        var i :| 0 <= i < |labels| && Truthy(stamps[i]) && m == Milestone(labels[i], stamps[i].value);
        assert i != k;
      }
    }
  }

  /** The timeline card: "Placed" with the creation date, then each later milestone
      whose timestamp is truthy. */
  function Timeline(t: Timestamps): (r: seq<Milestone>)
    ensures |r| >= 1 && r[0] == Milestone("Placed", t.creationDate)
  {
    [Milestone("Placed", t.creationDate)] + Shown(StepLabels, Stamps(t))
  }

  /** A milestone appears on the timeline exactly when its timestamp is truthy, and
      then with that timestamp. */
  lemma TimelineShowsSetStamps(t: Timestamps, k: nat)
    requires k < |StepLabels|
    ensures Truthy(Stamps(t)[k]) ==> Milestone(StepLabels[k], Stamps(t)[k].value) in Timeline(t)
    ensures !Truthy(Stamps(t)[k]) ==> forall m :: m in Timeline(t) ==> m.caption != StepLabels[k]
  {
    assert forall i, j :: 0 <= i < j < |StepLabels| ==> StepLabels[i] != StepLabels[j] by {
      forall i, j | 0 <= i < j < |StepLabels| ensures StepLabels[i] != StepLabels[j] {
        assert StepLabels[i][0] != StepLabels[j][0] || StepLabels[i][1] != StepLabels[j][1];
      }
    }
    ShownExactly(StepLabels, Stamps(t), k);
    assert StepLabels[k] != "Placed" by {
      assert StepLabels[k][0] != 'P' || StepLabels[k][1] != 'l';
    }
  }
}
