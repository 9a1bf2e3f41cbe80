/**
 * `extract_soup`: request a page until the server answers OK, asking the user
 * after each failed request whether to retry or to quit the program.
 *
 * The network and the console are parameters: `respond(url, n)` is the
 * server's answer to the `n`-th request (counting from 0) for `url`, already
 * parsed when it is OK, and `choices[n]` is what the user types after the
 * `n`-th failed request.
 */
module Fetching {
  import opened Text
  import opened Extraction

  /**
   * What `requests.get` returns in `extract_soup`: whether the status is OK
   * and the page it parses to. A request that raises instead of returning is
   * not modelled.
   */
  datatype Response = Response(ok: bool, page: Page)

  /**
   * How the retry loop ends after `requests` requests: with a parsed page,
   * with the program exiting on the user's request, or stopped at the prompt
   * because the given answers have run out.
   */
  datatype SoupOutcome =
    | Parsed(page: Page, requests: nat)
    | Quit(requests: nat)
    | AwaitingInput(requests: nat)

  /** The user's answer ends the program: `user_choice.capitalize() == "Q"`. */
  predicate ShouldQuit(userChoice: string) {
    Capitalize(userChoice) == "Q"
  }

  /** Exactly `q` and `Q` quit; everything else, the empty answer included, retries. */
  lemma QuitIff(userChoice: string)
    ensures ShouldQuit(userChoice) <==> userChoice == "q" || userChoice == "Q"
  {
    if ShouldQuit(userChoice) {
      assert |userChoice| == 1;
      assert ToUpper(userChoice[0]) == 'Q';
    }
  }

  /** How the loop continues from request number `n` on. */
  function SoupFrom(url: string, respond: (string, nat) -> Response, choices: seq<string>, n: nat): (r: SoupOutcome)
    requires n <= |choices|
    ensures n < r.requests <= |choices| + 1
    ensures r.AwaitingInput? ==> r.requests == |choices| + 1
    decreases |choices| - n
  {
    var pageContent := respond(url, n);
    if pageContent.ok then Parsed(pageContent.page, n + 1)
    else if n == |choices| then AwaitingInput(n + 1)
    else if ShouldQuit(choices[n]) then Quit(n + 1)
    else SoupFrom(url, respond, choices, n + 1)
  }

  /** `extract_soup(url)`. */
  method ExtractSoup(url: string, respond: (string, nat) -> Response, choices: seq<string>) returns (outcome: SoupOutcome)
    ensures outcome == SoupFrom(url, respond, choices, 0)
  {
    var attempt := 0;
    var pageContent := respond(url, attempt);
    while !pageContent.ok
      invariant attempt <= |choices|
      invariant pageContent == respond(url, attempt)
      invariant SoupFrom(url, respond, choices, attempt) == SoupFrom(url, respond, choices, 0)
      decreases |choices| - attempt
    {
      if attempt == |choices| {
        return AwaitingInput(attempt + 1);
      }
      var userChoice := choices[attempt];
      if ShouldQuit(userChoice) {
        return Quit(attempt + 1);
      }
      attempt := attempt + 1;
      pageContent := respond(url, attempt);
    }
    return Parsed(pageContent.page, attempt + 1);
  }

  /** Every request before the `m`-th failed and was answered with something other than quit. */
  predicate RetriedUpTo(url: string, respond: (string, nat) -> Response, choices: seq<string>, m: nat)
    requires m <= |choices|
  {
    forall j :: 0 <= j < m ==> !respond(url, j).ok && !ShouldQuit(choices[j])
  }

  /**
   * The loop returns the page of request `m` exactly when that request is
   * the first OK one and every earlier failure was answered with a retry.
   */
  lemma {:induction false} ParsedIff(url: string, respond: (string, nat) -> Response, choices: seq<string>, n: nat, m: nat)
    requires n <= m <= |choices|
    requires RetriedUpTo(url, respond, choices, n)
    ensures SoupFrom(url, respond, choices, n) == Parsed(respond(url, m).page, m + 1)
        <==> RetriedUpTo(url, respond, choices, m) && respond(url, m).ok
    decreases m - n
  {
    if n < m {
      if !respond(url, n).ok && !ShouldQuit(choices[n]) {
        ParsedIff(url, respond, choices, n + 1, m);
      } else {
        assert !RetriedUpTo(url, respond, choices, m) by {
          assert !(!respond(url, n).ok && !ShouldQuit(choices[n]));
        }
      }
    }
  }

  /**
   * The program quits after request `m + 1` exactly when that request failed,
   * the user's answer to it capitalizes to `Q`, and every earlier failure was
   * answered with a retry.
   */
  lemma {:induction false} QuitAfter(url: string, respond: (string, nat) -> Response, choices: seq<string>, n: nat, m: nat)
    requires n <= m < |choices|
    requires RetriedUpTo(url, respond, choices, n)
    ensures SoupFrom(url, respond, choices, n) == Quit(m + 1)
        <==> RetriedUpTo(url, respond, choices, m) && !respond(url, m).ok && ShouldQuit(choices[m])
    decreases m - n
  {
    if n < m {
      if !respond(url, n).ok && !ShouldQuit(choices[n]) {
        QuitAfter(url, respond, choices, n + 1, m);
      } else {
        assert !RetriedUpTo(url, respond, choices, m) by {
          assert !(!respond(url, n).ok && !ShouldQuit(choices[n]));
        }
      }
    }
  }

  /**
   * The loop is still waiting at the prompt exactly when every answer given
   * was a retry and every request so far, the last one included, failed.
   */
  lemma {:induction false} AwaitingIff(url: string, respond: (string, nat) -> Response, choices: seq<string>, n: nat)
    requires n <= |choices|
    requires RetriedUpTo(url, respond, choices, n)
    ensures SoupFrom(url, respond, choices, n).AwaitingInput?
        <==> RetriedUpTo(url, respond, choices, |choices|) && !respond(url, |choices|).ok
    decreases |choices| - n
  {
    if n < |choices| {
      if !respond(url, n).ok && !ShouldQuit(choices[n]) {
        AwaitingIff(url, respond, choices, n + 1);
      } else {
        assert !RetriedUpTo(url, respond, choices, |choices|) by {
          assert !(!respond(url, n).ok && !ShouldQuit(choices[n]));
        }
      }
    }
  }

  /** However the loop ends, no request was for any URL but the one it was given. */
  lemma {:induction false} OnlyThisUrl(url: string, respond: (string, nat) -> Response, respond': (string, nat) -> Response, choices: seq<string>, n: nat)
    requires n <= |choices|
    requires forall j :: respond(url, j) == respond'(url, j)
    ensures SoupFrom(url, respond, choices, n) == SoupFrom(url, respond', choices, n)
    decreases |choices| - n
  {
    if n < |choices| {
      OnlyThisUrl(url, respond, respond', choices, n + 1);
    }
  }
}
