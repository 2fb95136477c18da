/**
 * The card of one matched student guide: its attendance line, the colour
 * of its reliability badge and the reasons it was matched.
 */
module StudentProfileCard {
  import opened Wrappers
  import Text

  /** The fields of a match the card's logic reads. */
  datatype StudentMatch = StudentMatch(
    studentId: string,
    tripsHosted: int,
    noShowCount: int,
    reliabilityBadge: Option<string>,
    matchReasons: seq<string>)

  /** Which attendance line the card shows. */
  datatype Reliability = PerfectAttendance | NoShows(count: nat) | NewGuide

  function ReliabilityOf(noShowCount: int, tripsHosted: int): (r: Reliability)
    ensures r == PerfectAttendance <==> noShowCount == 0 && tripsHosted > 0
    ensures r.NoShows? <==> noShowCount > 0
    ensures r.NoShows? ==> r.count == noShowCount
  {
    if noShowCount == 0 && tripsHosted > 0 then PerfectAttendance
    else if noShowCount > 0 then NoShows(noShowCount)
    else NewGuide
  }

  /**
   * The attendance line's text. A count of no-shows is written in decimal
   * and followed by "no-show", with a plural "s" exactly when the count is
   * above one.
   */
  function ReliabilityText(r: Reliability): (text: string)
    requires r.NoShows? ==> r.count > 0
    ensures text == "Perfect attendance" <==> r == PerfectAttendance
    ensures text == "New guide" <==> r == NewGuide
    ensures r.NoShows? ==>
      var digits := Text.NatToString(r.count);
      && Text.StartsWith(text, digits) && Text.DecimalValue(digits) == r.count
      && (text[|text| - 1] == 's' <==> r.count > 1)
      && text == digits + " no-show" + (if r.count > 1 then "s" else "")
  {
    match r
    case PerfectAttendance => "Perfect attendance"
    case NewGuide => "New guide"
    case NoShows(n) =>
      Text.NatToStringRoundTrip(n);
      var digits := Text.NatToString(n);
      var text := digits + " no-show" + (if n > 1 then "s" else "");
      assert text[..|digits|] == digits;
      // a line that starts with a digit is neither of the fixed texts
      assert text[0] != "Perfect attendance"[0] && text[0] != "New guide"[0];
      text
  }

  /** The line a match gets. */
  function AttendanceLine(student: StudentMatch): (text: string)
    ensures text == "Perfect attendance" <==> student.noShowCount == 0 && student.tripsHosted > 0
    ensures text == "New guide" <==> student.noShowCount <= 0 && !(student.noShowCount == 0 && student.tripsHosted > 0)
  {
    ReliabilityText(ReliabilityOf(student.noShowCount, student.tripsHosted))
  }

  const DefaultBadgeColor: string := "bg-gray-200 text-gray-700"

  /** `reliabilityBadgeColor`: gold, silver and bronze have their colours, any other or no badge the gray default. */
  function BadgeColor(badge: Option<string>): (r: string)
    ensures r == DefaultBadgeColor <==> badge != Some("gold") && badge != Some("silver") && badge != Some("bronze")
    ensures badge == Some("gold") ==> r == "bg-yellow-500 text-yellow-900"
    ensures badge == Some("silver") ==> r == "bg-gray-400 text-gray-900"
    ensures badge == Some("bronze") ==> r == "bg-orange-600 text-orange-100"
  {
    if badge == Some("gold") then "bg-yellow-500 text-yellow-900"
    else if badge == Some("silver") then "bg-gray-400 text-gray-900"
    else if badge == Some("bronze") then "bg-orange-600 text-orange-100"
    else DefaultBadgeColor
  }

  /** The "Why this guide?" list: absent for no reasons, otherwise the first three, in order. */
  function ShownReasons(reasons: seq<string>): (r: Option<seq<string>>)
    ensures r.None? <==> reasons == []
    ensures r.Some? ==> 1 <= |r.value| <= 3 && |r.value| <= |reasons| && r.value == reasons[..|r.value|]
    ensures r.Some? ==> |r.value| == 3 || r.value == reasons
  {
    if reasons == [] then None
    else if |reasons| <= 3 then Some(reasons)
    else Some(reasons[..3])
  }
}
