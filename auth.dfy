/**
 * The bearer-token gate in front of every mutating route: the token is the
 * second space-separated word of the `Authorization` header; a missing or
 * empty token is refused with 401, a token the signature check rejects with
 * 403. The signature check itself (JWT verification with the server secret)
 * is a parameter.
 */
module Auth {
  import opened Values
  import opened Strings

  /** `authHeader && authHeader.split(" ")[1]`: the second word, when the header is truthy and has one. */
  function BearerToken(header: Option<string>): (token: Option<string>)
    ensures token.Some? ==> Truthy(header) && ' ' !in token.value
  {
    if !Truthy(header) then None
    else
      var words := Split(header.value, ' ');
      if |words| >= 2 then Some(words[1]) else None
  }

  /**
   * The gate's verdict: `None` lets the request through, otherwise the
   * status it is refused with.
   */
  function Check(header: Option<string>, verifies: string -> bool): (refusal: Option<int>)
    ensures refusal == None || refusal == Some(Unauthorized) || refusal == Some(Forbidden)
    ensures refusal == None ==> BearerToken(header).Some? && verifies(BearerToken(header).value)
    ensures refusal == Some(Unauthorized) <==> !Truthy(BearerToken(header))
    ensures Truthy(BearerToken(header)) && verifies(BearerToken(header).value) ==> refusal == None
  {
    var token := BearerToken(header);
    if !Truthy(token) then Some(Unauthorized)
    else if !verifies(token.value) then Some(Forbidden)
    else None
  }

  /** A header `scheme token` yields `token`. */
  lemma {:induction false} TokenOfTwoWords(scheme: string, token: string)
    requires ' ' !in scheme && ' ' !in token
    ensures BearerToken(Some(scheme + " " + token)) == Some(token)
  {
    assert scheme + " " + token == scheme + [' '] + token;
    SplitFirst(scheme, token, ' ');
    SplitWithoutSeparator(token, ' ');
  }

  /** Words after the token are ignored: `scheme token rest` yields `token`. */
  lemma {:induction false} TokenIgnoresLaterWords(scheme: string, token: string, rest: string)
    requires ' ' !in scheme && ' ' !in token
    ensures BearerToken(Some(scheme + " " + token + " " + rest)) == Some(token)
  {
    var h := scheme + " " + token + " " + rest;
    assert h == scheme + [' '] + (token + [' '] + rest);
    SplitFirst(scheme, token + [' '] + rest, ' ');
    SplitFirst(token, rest, ' ');
  }

  /**
   * A well-formed header passes exactly when its token verifies, and is
   * refused with 403 otherwise.
   */
  lemma WellFormedHeader(scheme: string, token: string, verifies: string -> bool)
    requires ' ' !in scheme && ' ' !in token && token != ""
    ensures Check(Some(scheme + " " + token), verifies) == (if verifies(token) then None else Some(Forbidden))
  {
    TokenOfTwoWords(scheme, token);
  }

  /** A header without a space (a bare token, say) is refused with 401 whatever the token. */
  lemma {:induction false} OneWordHeaderRefused(h: string, verifies: string -> bool)
    requires ' ' !in h
    ensures Check(Some(h), verifies) == Some(Unauthorized)
  {
    if h != "" {
      SplitWithoutSeparator(h, ' ');
    }
  }

  /** A missing or empty header is refused with 401. */
  lemma MissingHeaderRefused(header: Option<string>, verifies: string -> bool)
    requires !Truthy(header)
    ensures Check(header, verifies) == Some(Unauthorized)
  {
  }
}
