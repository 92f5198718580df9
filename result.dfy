/** The outcome record of one task execution (src/Queue/Result.php). */
module Results {

  class Result {
    /** Error descriptions, in the order they were added. */
    var errors: seq<string>

    /** `new Result($errors = [])`: keeps the given list as it is. */
    constructor (errors: seq<string> := [])
      ensures Errors() == errors
      ensures Successful() <==> errors == []
    {
      this.errors := errors;
    }

    /** The error list, as handed to the constructor and extended by AddError. */
    function Errors(): seq<string>
      reads this
    {
      errors
    }

    /** An execution is successful exactly when no error was recorded. */
    predicate Successful()
      reads this
      ensures Successful() <==> |Errors()| == 0
    {
      errors == []
    }

    /** Appends one error after the earlier ones; the result is no longer successful. */
    method AddError(error: string)
      modifies this
      ensures Errors() == old(Errors()) + [error]
      ensures Errors()[..|old(Errors())|] == old(Errors())
      ensures !Successful()
    {
      errors := errors + [error];
    }
  }
}
