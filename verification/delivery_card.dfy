/**
 * The delivery card: the record it displays, the progress bar it derives
 * from the status, the status badge, and when its footer shows the ETA line.
 */
module DeliveryCard {

  datatype Option<T> = None | Some(value: T)

  /** The four statuses a delivery is declared to have (`DeliveryStatus`). */
  datatype DeliveryStatus = Pending | InTransit | Delivered | Delayed

  /** The string literal each status is written as. */
  function StatusName(s: DeliveryStatus): string {
    match s
    case Pending => "pending"
    case InTransit => "in-transit"
    case Delivered => "delivered"
    case Delayed => "delayed"
  }

  /**
   * Reads a status string: one of the four literals, or no status at all.
   * The page's records hold plain strings, which the card's `switch`
   * statements compare against these literals.
   */
  function ParseStatus(raw: string): (r: Option<DeliveryStatus>)
    ensures r.Some? ==> StatusName(r.value) == raw
    ensures r.None? ==> forall s :: StatusName(s) != raw
  {
    if raw == "pending" then Some(Pending)
    else if raw == "in-transit" then Some(InTransit)
    else if raw == "delivered" then Some(Delivered)
    else if raw == "delayed" then Some(Delayed)
    else None
  }

  /** Every status reads back as itself. */
  lemma ParseStatusName(s: DeliveryStatus)
    ensures ParseStatus(StatusName(s)) == Some(s)
  {
  }

  /** A string is one of the four declared statuses. */
  predicate IsKnownStatus(raw: string) {
    ParseStatus(raw).Some?
  }

  /**
   * One delivery record, as the card receives it. `status` is the raw string
   * the page holds; `estimatedArrival` and `createdAt` are only displayed.
   */
  datatype DeliveryRecord = DeliveryRecord(
    id: string,
    destination: string,
    items: seq<string>,
    quantity: int,
    status: string,
    estimatedArrival: string,
    createdAt: string)

  /**
   * `getProgressPercent`: the width of the progress bar. It lies in 0..100,
   * is full only for a delivered shipment, and is empty only for a string
   * that is not one of the four statuses.
   */
  function ProgressPercent(status: string): (r: int)
    ensures 0 <= r <= 100
    ensures r == 100 <==> ParseStatus(status) == Some(Delivered)
    ensures r == 0 <==> !IsKnownStatus(status)
  {
    if status == "pending" then 10
    else if status == "in-transit" then 60
    else if status == "delivered" then 100
    else if status == "delayed" then 40
    else 0
  }

  /** The progress of each status. */
  lemma ProgressTable()
    ensures ProgressPercent(StatusName(Pending)) == 10
    ensures ProgressPercent(StatusName(InTransit)) == 60
    ensures ProgressPercent(StatusName(Delivered)) == 100
    ensures ProgressPercent(StatusName(Delayed)) == 40
  {
  }

  /**
   * Progress is not ordered by how late a shipment is: a delayed one shows
   * less progress than one in transit, though more than a pending one.
   */
  lemma DelayedBehindInTransit()
    ensures ProgressPercent(StatusName(Pending)) < ProgressPercent(StatusName(Delayed))
    ensures ProgressPercent(StatusName(Delayed)) < ProgressPercent(StatusName(InTransit))
  {
  }

  /** `getStatusDisplay`: the badge text, with "Unknown" for a string that is not a status. */
  function StatusLabel(status: string): (r: string)
    ensures r == "Unknown" <==> !IsKnownStatus(status)
  {
    if status == "pending" then "Pending"
    else if status == "in-transit" then "In Transit"
    else if status == "delivered" then "Delivered"
    else if status == "delayed" then "Delayed"
    else "Unknown"
  }

  /** Distinct statuses get distinct badges. */
  lemma StatusLabelInjective(s1: DeliveryStatus, s2: DeliveryStatus)
    ensures StatusLabel(StatusName(s1)) == StatusLabel(StatusName(s2)) <==> s1 == s2
  {
  }

  /**
   * The footer's "ETA:" line is shown for every status but `delivered`. (The
   * card's "Expected Arrival" field shows the estimate whatever the status.)
   */
  predicate ShowsEta(status: string) {
    status != "delivered"
  }

  /** The footer's ETA line is shown exactly while the progress bar is not full. */
  lemma EtaShownWhileIncomplete(status: string)
    ensures ShowsEta(status) <==> ProgressPercent(status) < 100
  {
  }
}
