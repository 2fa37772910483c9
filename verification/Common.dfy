// Failure-aware wrapper types shared by every module.
module Common {

  datatype Option<+T> = None | Some(value: T) {
    function GetOr(default: T): T {
      if Some? then value else default
    }
  }

  // What a call into code outside the model did: it returned a value or raised.
  datatype Reply<+T> = Answer(value: T) | Raise {
    function GetAnswer(default: T): T {
      if Answer? then value else default
    }
  }
}
