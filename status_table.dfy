/** The SparkFun pulse-oximeter status table and the lookup the status
    handler performs in it. */
module StatusTable {
  import opened Wrappers

  /** `statusArray`: the message shown for each status code the sensor
      reports. Code 0 (idle) shows nothing. */
  const StatusArray: map<int, string> := map[
    0 := "",
    1 := "Connecting ...",
    255 := "Measuring ...",
    254 := "Keep sensor still",
    253 := "Place finger on sensor",
    252 := "Reduce pressure on sensor",
    251 := "You sure that's a finger?",
    250 := "Keep finger still"
  ]

  /** The eight codes of the sensor's status table, independently of the map. */
  predicate IsKnownCode(code: int)
  {
    code == 0 || code == 1 || 250 <= code <= 255
  }

  /** The property read `statusArray[code]`. A code without an entry reads as
      JavaScript's `undefined`, modelled as None, which is distinct from the
      empty message of code 0. */
  function StatusMessage(code: int): (r: Option<string>)
    ensures r.Some? <==> IsKnownCode(code)
    ensures r == Some("") <==> code == 0
  {
    if code in StatusArray then Some(StatusArray[code]) else None
  }

  /** Each of the eight codes gives exactly its message from the table. */
  lemma StatusMessages()
    ensures StatusMessage(0) == Some("")
    ensures StatusMessage(1) == Some("Connecting ...")
    ensures StatusMessage(250) == Some("Keep finger still")
    ensures StatusMessage(251) == Some("You sure that's a finger?")
    ensures StatusMessage(252) == Some("Reduce pressure on sensor")
    ensures StatusMessage(253) == Some("Place finger on sensor")
    ensures StatusMessage(254) == Some("Keep sensor still")
    ensures StatusMessage(255) == Some("Measuring ...")
  {
  }

  /** Different known codes never share a message, so the status field
      identifies the code that set it. */
  lemma StatusMessageInjective(a: int, b: int)
    requires IsKnownCode(a) && IsKnownCode(b)
    requires StatusMessage(a) == StatusMessage(b)
    ensures a == b
  {
  }
}
