/** The credential check shared, line for line, by the sign-in and the
    registration screens: both fields filled in, then an address of the
    shape `^\S+@gmail\.com$`. */
module Credentials {
  import opened Text

  const GmailSuffix: string := "@gmail.com"

  /** The regular expression's language: a non-empty prefix without white
      space followed by the literal suffix. The prefix may contain '@'. */
  predicate GmailShape(prefix: string, email: string) {
    |prefix| > 0 && NoWhitespace(prefix) && email == prefix + GmailSuffix
  }

  /** The test the screens run: the address ends in the suffix and what is
      before it is non-empty and free of white space. */
  predicate MatchesGmail(email: string) {
    var n := |email| - |GmailSuffix|;
    n > 0 && email[n..] == GmailSuffix && NoWhitespace(email[..n])
  }

  /** The test accepts exactly the addresses of the pattern's language. */
  lemma MatchesGmailIffShape(email: string)
    ensures MatchesGmail(email) <==> exists prefix :: GmailShape(prefix, email)
  {
    var n := |email| - |GmailSuffix|;
    if MatchesGmail(email) {
      assert email == email[..n] + email[n..];
      assert GmailShape(email[..n], email);
    }
    if exists prefix :: GmailShape(prefix, email) {
      var prefix :| GmailShape(prefix, email);
      assert |prefix| == n;
      assert email[..n] == prefix && email[n..] == GmailSuffix;
    }
  }

  /** What the shared checks decide. */
  datatype CredentialCheck = MissingField | NotGmail | CredentialsOk

  /** The two early returns: empty fields first, then the address shape. */
  function CheckCredentials(email: string, password: string): (r: CredentialCheck)
    ensures r == MissingField <==> email == "" || password == ""
    ensures r == NotGmail <==> email != "" && password != "" && !MatchesGmail(email)
    ensures r == CredentialsOk <==> password != "" && MatchesGmail(email)
  {
    if email == "" || password == "" then MissingField
    else if !MatchesGmail(email) then NotGmail
    else CredentialsOk
  }

  /** A few addresses and what the test makes of them. */
  lemma GmailExamples()
    ensures MatchesGmail("user@gmail.com")
    ensures MatchesGmail("a@b@gmail.com")
    ensures !MatchesGmail("@gmail.com")
    ensures !MatchesGmail("user name@gmail.com")
    ensures !MatchesGmail("user@yahoo.com")
    ensures !MatchesGmail("user@GMAIL.com")
  {
    var e := "user name@gmail.com";
    assert e[..|e| - |GmailSuffix|][4] == ' ';
  }
}
