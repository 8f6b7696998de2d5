/** The display-name check of `components/SignIn.tsx`: the input is trimmed,
    then three checks run in order and the first one that fails decides the
    message; otherwise the trimmed name is signed in. Lengths are JavaScript
    string lengths, in UTF-16 code units. */
module SignIn {
  import opened JsStrings

  datatype SignInResult = SignedIn(name: string) | Rejected(message: string)

  const EmptyMessage := "Please enter your name"
  const ShortMessage := "Name must be at least 2 characters"
  const LongMessage := "Name must be less than 50 characters"

  /** `handleSubmit`. The name passed on to `signIn` is the trimmed input. */
  function Submit(input: string): (r: SignInResult)
    ensures r == Rejected(EmptyMessage) <==> AllWhitespace(input)
    ensures r == Rejected(ShortMessage) <==> !AllWhitespace(input) && Utf16Length(Trim(input)) < 2
    ensures r == Rejected(LongMessage) <==> Utf16Length(Trim(input)) > 50
    ensures r.SignedIn? <==> 2 <= Utf16Length(Trim(input)) <= 50
    ensures r.SignedIn? ==> r.name == Trim(input) && IsTrimmed(r.name)
  {
    var name := Trim(input);
    TrimEmpty(input);
    if name == [] then Rejected(EmptyMessage)
    else if Utf16Length(name) < 2 then Rejected(ShortMessage)
    else if Utf16Length(name) > 50 then Rejected(LongMessage)
    else SignedIn(name)
  }

  /** Surrounding whitespace never matters: a trimmed name of 2 to 50 code
      units is accepted as it is, whatever whitespace is typed around it.
      Exactly 50 is accepted, although the message speaks of fewer than 50. */
  lemma AcceptsPadded(a: string, name: string, b: string)
    requires AllWhitespace(a) && AllWhitespace(b) && IsTrimmed(name)
    requires 2 <= Utf16Length(name) <= 50
    ensures Submit(a + name + b) == SignedIn(name)
  {
    TrimPadded(a, name, b);
  }

  /** Signing in again with the accepted name accepts the same name. */
  lemma SubmitIdempotent(input: string)
    requires Submit(input).SignedIn?
    ensures Submit(Submit(input).name) == Submit(input)
  {
    TrimIdempotent(input);
  }
}
