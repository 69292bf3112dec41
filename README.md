# BLE heart-rate display, modelled in Dafny

A browser script connects to a Bluetooth Low Energy pulse-oximeter. When the
connection callback arrives, it marks the page as connected. It then subscribes
the status characteristic and the heart-rate characteristic to two
notification handlers. The status handler shows the SparkFun sensor's message
for a status code and clears the heart rate for any code except 0. The
heart-rate handler shows a reading, or a placeholder when the reading is
absent or not positive.

The model replaces the page and the BLE transport with plain state:

- `Page.Display` is a class with the fields `status : Option<string>`,
  `rate : string` and `connected : bool`. The handlers are methods that
  modify these fields.
- `Router.Transport` holds the subscriptions the transport has recorded.
  `startNotifications` is modelled as appending one `Subscription(index, handler)`.
- `StatusTable` is the status table as a map, plus the lookup in it.
- `RateFormat` is the text written into the rate field. A reading is
  rendered as its decimal digits. `DigitsValue` parses them back, which
  gives the rendering a partner to be proved against.
- `Router.Routed` is the specification of the routing loop. It gives the
  subscriptions for the first `n` characteristics, in list order.
  `GotCharacteristics` runs that loop, and its invariant ties the recorded
  subscriptions to `Routed` of the prefix processed so far.

In two places the model keeps behaviour of the code that a reader might not expect:

- A status code that is not in the table looks up to JavaScript's
  `undefined`, not to the empty string. `StatusMessage` returns `None` for
  such a code. Only code 0 gives `Some("")`.
- When the connect callback receives an error, it only logs it. It still
  marks the page connected and still walks the characteristic list.
  `GotCharacteristics` takes the error as a parameter and does exactly the
  same thing with or without it.

## Model

| member | source | states |
|---|---|---|
| `StatusTable.StatusMessage` | ble-heartbeat.js:42-54 | the lookup has an entry exactly for the codes 0, 1 and 250–255 and is absent for every other code; the message is the empty string exactly for code 0 |
| `StatusTable.StatusMessages` | ble-heartbeat.js:42-51 | each of the eight codes gives exactly its message from the table (for example, 253 gives "Place finger on sensor") |
| `StatusTable.StatusMessageInjective` | ble-heartbeat.js:42-51 | two different known codes never show the same message |
| `Page.Display.HandleStatusNotification` | ble-heartbeat.js:53-56 | the status field becomes the lookup's result, which is absent for an unknown code; the rate field becomes the placeholder if and only if the code is not 0, and is otherwise unchanged; the connected flag is unchanged |
| `RateFormat.RateText` | ble-heartbeat.js:58-61 | the rate text is the placeholder if and only if the reading is absent, zero or negative; otherwise it is canonical decimal text that denotes the reading |
| `Page.Display.HandleHeartrateNotification` | ble-heartbeat.js:58-61 | the rate field becomes the reading's text or the placeholder, as `RateText` says; the status field and the connected flag are unchanged |
| `RateFormat.DecimalText` | ble-heartbeat.js:59 | the text of a number is a non-empty string of digits without a leading zero, and starts with '0' only for 0 |
| `RateFormat.DecimalRoundTrip` | ble-heartbeat.js:59 | parsing a number's text gives the number back |
| `RateFormat.DecimalTextOfValue` | ble-heartbeat.js:59 | every canonical decimal string is the text of the number it denotes, so the rendering is one-to-one |
| `Router.HandlerFor` | ble-heartbeat.js:33-35 | a characteristic is bound to the status handler exactly when it notifies and has the status uuid, and to the heart-rate handler exactly when it notifies and has the heart-rate uuid; otherwise it is not bound |
| `Router.Routed` | ble-heartbeat.js:32-36 | the subscriptions made for the first n characteristics, in list order: at most n of them, each for an index below n (their exact content is stated by `RoutedSound`, `RoutedComplete`, `RoutedOrdered` and `RoutedCount`) |
| `Router.RoutedSound` | ble-heartbeat.js:32-36 | every subscription is for a characteristic already processed, with the handler that its uuid selects |
| `Router.RoutedComplete` | ble-heartbeat.js:32-36 | every processed characteristic that notifies and has one of the two uuids is subscribed with its handler |
| `Router.RoutedOrdered` | ble-heartbeat.js:32-36 | subscriptions are in list order with strictly increasing indices, so each characteristic is subscribed at most once (the else-if) |
| `Router.RoutedCount` | ble-heartbeat.js:32-36 | the number of subscriptions equals the number of characteristics that notify and have one of the two uuids |
| `Router.NonNotifyingNeverSubscribed` | ble-heartbeat.js:33 | a characteristic that does not notify is never subscribed, whatever its uuid |
| `Router.Transport.StartNotifications` | ble-heartbeat.js:34-35 | subscribing appends exactly one record, for that characteristic and handler |
| `Router.GotCharacteristics` | ble-heartbeat.js:27-39 | afterwards the page is connected, whether or not an error was passed; the status and rate fields are unchanged; the transport's subscriptions are the old ones followed by `Routed` of the whole list |
| `Router.ThreeCharacteristicsExample` | ble-heartbeat.js:32-38 | for status, heart-rate and unknown notifying characteristics, in that order, exactly two subscriptions are made: index 0 to the status handler and index 1 to the heart-rate handler |

## Left out

- The p5ble transport (`new p5ble()`, `connect`, the service uuid, and how notifications are delivered) is a foreign library. `startNotifications` is modelled only as recording a subscription.
- DOM access (`document.querySelector`, `innerHTML`, `classList.add`) is replaced by the fields of `Page.Display`. How `undefined` or the `&dash;` entities appear on screen is not modelled.
- The `setup` function, the `DOMContentLoaded` listener and the click listener are event wiring around the connect call.
- `console.log` of a connection error is I/O. The error is a parameter that the model receives and does not otherwise use.
- The timing and interleaving of notification callbacks are event-loop behaviour. Each handler is modelled as an independent sequential operation.
- When the connect callback gets an error, `characteristics` is usually undefined, and `forEach` then throws. The model takes the characteristics as a sequence, possibly empty, and does not model the exception.
- Heart-rate payloads are modelled as `Option<int>`. Non-integer, non-numeric and NaN payloads, and JavaScript's exponent notation for numbers of 10^21 and above, are not modelled.
