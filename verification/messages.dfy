/** The message texts of the validator's error records. */
module Messages {
  import opened Builtins

  const MissingFieldMessage := "Missing field"
  const WrongTypeMessage := "Incorrect field type: expected string"
  const WhitespaceMessage := "Cannot start or end with whitespace"
  const TakenMessage := "Username already taken"

  /** `Must be at least ${min} characters long` */
  function TooShortMessage(min: nat): string {
    "Must be at least " + NatToString(min) + " characters long"
  }

  /** `Must be at most ${max} characters long` */
  function TooLongMessage(max: nat): string {
    "Must be at most " + NatToString(max) + " characters long"
  }

  /** The three texts the length stage's template literals produce for its bounds. */
  lemma SizeMessages()
    ensures TooShortMessage(1) == "Must be at least 1 characters long"
    ensures TooShortMessage(6) == "Must be at least 6 characters long"
    ensures TooLongMessage(72) == "Must be at most 72 characters long"
  {
    ShortMessages();
    LongMessage();
  }

  lemma ShortMessages()
    ensures TooShortMessage(1) == "Must be at least 1 characters long"
    ensures TooShortMessage(6) == "Must be at least 6 characters long"
  {
  }

  lemma LongMessage()
    ensures TooLongMessage(72) == "Must be at most 72 characters long"
  {
    assert NatToString(72) == "72" by {
      assert NatToString(7) == "7";
    }
  }
}
