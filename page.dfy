/** The part of the page the script writes to, and the two notification
    handlers that write it. */
module Page {
  import opened Wrappers
  import opened StatusTable
  import opened RateFormat

  /** The `#status` text, the `#rate` text, and whether the body carries the
      `ble-connected` class. The status text is None after the handler has
      written an undefined table entry into it. */
  class Display {
    var status: Option<string>
    var rate: string
    var connected: bool

    /** The page as loaded: whatever text the two fields start with, not connected. */
    constructor (initialStatus: string, initialRate: string)
      ensures status == Some(initialStatus) && rate == initialRate && !connected
    {
      status := Some(initialStatus);
      rate := initialRate;
      connected := false;
    }

    /** `handleStatusNotification`: show the table's message for the code
        (absent for an unknown code), and clear the rate unless the code is 0. */
    method HandleStatusNotification(code: int)
      modifies this
      ensures status == StatusMessage(code)
      ensures status.Some? <==> IsKnownCode(code)
      ensures rate == if code != 0 then Placeholder else old(rate)
      ensures connected == old(connected)
    {
      status := StatusMessage(code);
      if code != 0 {
        rate := Placeholder;
      }
    }

    /** `handleHeartrateNotification`: show a present, strictly positive
        reading, the placeholder otherwise; nothing else changes. */
    method HandleHeartrateNotification(data: Option<int>)
      modifies this
      ensures rate == RateText(data)
      ensures rate == Placeholder <==> !(data.Some? && data.value > 0)
      ensures status == old(status) && connected == old(connected)
    {
      if data.Some? && data.value > 0 {
        rate := DecimalText(data.value);
      } else {
        rate := Placeholder;
      }
    }
  }
}
