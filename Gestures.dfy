// The state a UIKit gesture recognizer reports to its action method.

module Gestures {

  datatype GestureState = Possible | Began | Changed | Ended | Cancelled | Failed
}
