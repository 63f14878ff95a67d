/** The stand-alone SOS button (frontend/src/components/SOSButton.jsx): a press
    asks the browser for the position and posts it to /api/sos. The geolocation
    outcome and the server's reply are parameters. */
module SosButton {
  import opened Common

  datatype Status = Idle | Sending | Success | Failed

  /** `requests` counts the POST requests the button has sent. */
  datatype Button = Button(status: Status, error: string, requests: nat)

  const Initial: Button := Button(Idle, "", 0)

  /** What `navigator.geolocation` yields: no API at all, a refused or failed
      lookup, or a position. */
  datatype Geolocation = Unsupported | Denied | Located(lat: real, lng: real)

  /** How `fetch` ends: a response with `ok` set, a response without it, or a rejection. */
  datatype Reply = Ok | NotOk | NetworkError

  /** `handleSOS` up to the position lookup. */
  function Pressed(b: Button): (r: Button)
    ensures r == b.(status := Sending, error := "")
  {
    b.(status := Sending, error := "")
  }

  /** The rest of `handleSOS` once the position lookup and the request ended. */
  function Settled(b: Button, geo: Geolocation, reply: Reply): (r: Button)
    ensures geo == Unsupported ==> r == b.(status := Failed, error := "Geolocation not supported")
    ensures geo == Denied ==> r == b.(status := Failed, error := "Location error")
    ensures r.requests == b.requests + (if geo.Located? then 1 else 0)
    ensures r.status == Success <==> geo.Located? && reply == Ok
    ensures geo.Located? && reply != Ok ==> r.status == Failed && r.error == "SOS failed"
    ensures r.status == Success ==> r.error == b.error
  {
    match geo
    case Unsupported => b.(status := Failed, error := "Geolocation not supported")
    case Denied => b.(status := Failed, error := "Location error")
    case Located(_, _) =>
      var sent := b.(requests := b.requests + 1);
      if reply == Ok then sent.(status := Success)
      else sent.(status := Failed, error := "SOS failed")
  }

  predicate Disabled(b: Button)
  {
    b.status == Sending || b.status == Success
  }

  /** A click runs `handleSOS` unless the button is disabled. */
  function Click(b: Button, geo: Geolocation, reply: Reply): (r: Button)
    ensures Disabled(b) ==> r == b
    ensures !Disabled(b) ==> r == Settled(Pressed(b), geo, reply)
  {
    if Disabled(b) then b else Settled(Pressed(b), geo, reply)
  }

  function Label(b: Button): (l: string)
    ensures b.status == Idle <==> l == "Send SOS"
    ensures b.status == Sending <==> l == "Sending..."
    ensures b.status == Success <==> l == "SOS Sent!"
    ensures b.status == Failed <==> l == "Try Again"
  {
    match b.status
    case Idle => "Send SOS"
    case Sending => "Sending..."
    case Success => "SOS Sent!"
    case Failed => "Try Again"
  }

  /** "Help is on the way." is shown exactly on success. */
  predicate HelpShown(b: Button)
  {
    b.status == Success
  }

  /** The button is disabled exactly while sending and after success, and each
      click sends at most one request. */
  lemma ClickSendsAtMostOne(b: Button, geo: Geolocation, reply: Reply)
    ensures Disabled(Pressed(b))
    ensures Click(b, geo, reply).requests <= b.requests + 1
    ensures !Disabled(Click(b, geo, reply)) <==> Click(b, geo, reply).status in {Idle, Failed}
  {
  }

  /** Success is final: no later click sends another request or changes the button. */
  lemma {:induction false} SuccessIsFinal(b: Button, geos: seq<Geolocation>, replies: seq<Reply>)
    requires b.status == Success && |geos| == |replies|
    ensures Clicks(b, geos, replies) == b
    decreases |geos|
  {
    if geos != [] {
      SuccessIsFinal(Click(b, geos[0], replies[0]), geos[1..], replies[1..]);
    }
  }

  function Clicks(b: Button, geos: seq<Geolocation>, replies: seq<Reply>): Button
    requires |geos| == |replies|
    decreases |geos|
  {
    if geos == [] then b else Clicks(Click(b, geos[0], replies[0]), geos[1..], replies[1..])
  }

  /** A failure can be retried: a second click with a position and an OK reply succeeds. */
  lemma RetryAfterFailure(lat: real, lng: real)
    ensures var first := Click(Initial, Denied, Ok);
      && Label(first) == "Try Again"
      && Click(first, Located(lat, lng), Ok).status == Success
      && Click(first, Located(lat, lng), Ok).requests == 1
  {
  }
}
