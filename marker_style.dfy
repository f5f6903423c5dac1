/**
 * Per-marker render parameters of the order map
 * (src/components/map/OrderMap.jsx): the colour of a marker follows the
 * order's status, its size follows the map's zoom level.
 */
module MarkerStyle {

  datatype Color = Orange | Blue | Red | Gray

  const AwaitingVolunteer: string := "Очікує на виконавця"
  const InProgress: string := "В роботі"
  const Cancelled: string := "Скасовано"

  /** `getStatusColor`: a switch on the exact status string, gray for every other string. */
  function StatusColor(status: string): (c: Color)
    ensures c == Orange <==> status == AwaitingVolunteer
    ensures c == Blue <==> status == InProgress
    ensures c == Red <==> status == Cancelled
    ensures c == Gray <==> status !in {AwaitingVolunteer, InProgress, Cancelled}
  {
    if status == AwaitingVolunteer then Orange
    else if status == InProgress then Blue
    else if status == Cancelled then Red
    else Gray
  }

  /** A colour other than gray identifies the status it was computed from. */
  lemma ColoredStatusIsDetermined(s: string, t: string)
    requires StatusColor(s) != Gray && StatusColor(s) == StatusColor(t)
    ensures s == t
  {
  }

  /** The initial zoom level of the map. */
  const InitialZoom: real := 6.0

  /** The `markerSize` expression: three tiers, each inclusive at its lower bound. */
  function MarkerSize(zoom: real): (size: nat)
    ensures size == 26 <==> zoom >= 10.0
    ensures size == 22 <==> 8.0 <= zoom < 10.0
    ensures size == 18 <==> zoom < 8.0
  {
    if zoom >= 10.0 then 26 else if zoom >= 8.0 then 22 else 18
  }

  /** Zooming in never shrinks a marker. */
  lemma MarkerSizeMonotonic(z1: real, z2: real)
    requires z1 <= z2
    ensures MarkerSize(z1) <= MarkerSize(z2)
  {
  }

  /** The map opens at the smallest tier. */
  lemma InitialMarkerSize()
    ensures MarkerSize(InitialZoom) == 18
  {
  }
}
