/**
 Scoring one egress IP (collectScores in internal/service/scoring_service.go):
 how the two sources are combined, what is cached, and what a cache entry
 gives back.
 */
module Egress {
  import opened Prelude

  /** How well a response IP matches the queried one. */
  datatype IPMatch = Exact | Cidr | Mismatch | Unknown

  /** The Claude source's answer; it may carry no usable score. */
  datatype Risk = Risk(score: Option<int>, scope: IPMatch, responseIP: string)

  /** The lookup source's trimmed payload. */
  datatype Lookup = Lookup(scope: IPMatch, payload: string)

  /** What one HTTP call to a source came back with. */
  datatype Fetched<+T> = Got(value: T) | RateLimited(retryAfter: int) | Failed(message: string)

  /** The stored ip_info document. */
  datatype Info = Info(ip: string, claude: Option<Risk>, lookup: Option<Lookup>)

  datatype Scores = Scores(claudeScore: Option<int>, claudeMatch: IPMatch, claudeResponseIP: string, lookupMatch: IPMatch)

  const NO_SCORES := Scores(None, Unknown, "", Unknown)

  /** What collectScores returns: the scores, the document, a rate limit, an error. */
  datatype Tuple = Tuple(res: Scores, info: Option<Info>, rateLimit: Option<int>, err: Option<string>)

  /** A request: the IP, and whether the Claude source is required for it. */
  datatype Key = Key(ip: string, claudeVisible: bool)

  datatype Entry = Entry(info: Info, fetchedAt: int)

  const TTL: int := 6 * 24 * 3600

  // ----- reading a cache entry --------------------------------------------

  function ScoresOf(info: Info): Scores {
    var lookupMatch := if info.lookup.None? then Unknown else info.lookup.value.scope;
    match info.claude
    case None => NO_SCORES.(lookupMatch := lookupMatch)
    case Some(risk) => Scores(risk.score, risk.scope, risk.responseIP, lookupMatch)
  }

  /** A fresh entry answers unless the request needs a source the entry lacks. */
  function CacheAnswer(cache: map<string, Entry>, key: Key, now: int): Option<Tuple> {
    if key.ip !in cache || now - cache[key.ip].fetchedAt >= TTL then None
    else
      var info := cache[key.ip].info;
      if key.claudeVisible && info.claude.None? then None
      else Some(Tuple(ScoresOf(info), Some(info), None, None))
  }

  /** An entry answers for six days, and only a request whose sources it has; it gives back its document and the scores in it. */
  lemma HitsExactly(cache: map<string, Entry>, key: Key, now: int)
    ensures var answer := CacheAnswer(cache, key, now);
            && (answer.Some? <==>
                  && key.ip in cache && now < cache[key.ip].fetchedAt + 518_400
                  && (key.claudeVisible ==> cache[key.ip].info.claude.Some?))
            && (answer.Some? ==> answer.value.info == Some(cache[key.ip].info) && answer.value.err == None && answer.value.rateLimit == None)
  {}

  // ----- combining the sources --------------------------------------------

  /** Fetches what the request requires and assembles the result; cacheable says it may be stored. */
  method Collect(key: Key, claude: Fetched<Risk>, lookup: Fetched<Lookup>) returns (out: Tuple, cacheable: bool)
    ensures cacheable <==> lookup.Got? && (key.claudeVisible ==> claude.Got?)
    ensures out.rateLimit == if key.claudeVisible && claude.RateLimited? then Some(claude.retryAfter)
                             else if lookup.RateLimited? then Some(lookup.retryAfter) else None
    ensures out.info.Some? <==> out.rateLimit.None? && (lookup.Got? || !key.claudeVisible || claude.Got?)
    ensures out.info.Some? ==>
        && out.info.value.ip == key.ip
        && out.info.value.claude == (if key.claudeVisible && claude.Got? then Some(claude.value) else None)
        && out.info.value.lookup == (if lookup.Got? then Some(lookup.value) else None)
    ensures out.err.Some? <==> out.rateLimit.None? && !cacheable
    ensures out.rateLimit.None? && key.claudeVisible && claude.Got? ==>
        out.res.claudeScore == claude.value.score && out.res.claudeMatch == claude.value.scope
        && out.res.claudeResponseIP == claude.value.responseIP
    ensures out.rateLimit.Some? || !key.claudeVisible || !claude.Got? ==>
        out.res.claudeScore == None && out.res.claudeMatch == Unknown && out.res.claudeResponseIP == ""
    ensures out.res.lookupMatch == if out.rateLimit.None? && lookup.Got? then lookup.value.scope else Unknown
    ensures (out, cacheable) == Combined(key, claude, lookup)
  {
    var res := NO_SCORES;
    var risk: Option<Risk>, rerr: Option<string> := None, None;
    if key.claudeVisible {
      match claude
      case RateLimited(after) => return Tuple(res, None, Some(after), None), false;
      case Failed(message) => rerr := Some(message);
      case Got(value) => risk := Some(value);
    }
    var payload: Option<Lookup>, lerr: Option<string> := None, None;
    var lookupMatch := Unknown;
    match lookup {
      case RateLimited(after) => return Tuple(res, None, Some(after), None), false;
      case Failed(message) => lerr := Some(message);
      case Got(value) => payload, lookupMatch := Some(value), value.scope;
    }
    if risk.Some? {
      res := res.(claudeScore := risk.value.score, claudeMatch := risk.value.scope, claudeResponseIP := risk.value.responseIP);
    }
    res := res.(lookupMatch := lookupMatch);
    if rerr.Some? && lerr.Some? {
      return Tuple(res, None, None, Some("both sources failed: " + rerr.value + "; " + lerr.value)), false;
    }
    var partial: Option<string> := None;
    if rerr.Some? {
      partial := Some("claude source failed: " + rerr.value);
    } else if lerr.Some? {
      partial := Some("lookup source failed: " + lerr.value);
    }
    return Tuple(res, Some(Info(key.ip, risk, payload)), None, partial), partial.None?;
  }

  /** The same result as a function of what was fetched. */
  function Combined(key: Key, claude: Fetched<Risk>, lookup: Fetched<Lookup>): (Tuple, bool) {
    if key.claudeVisible && claude.RateLimited? then (Tuple(NO_SCORES, None, Some(claude.retryAfter), None), false)
    else if lookup.RateLimited? then (Tuple(NO_SCORES, None, Some(lookup.retryAfter), None), false)
    else
      var risk := if key.claudeVisible && claude.Got? then Some(claude.value) else None;
      var payload := if lookup.Got? then Some(lookup.value) else None;
      var info := Info(key.ip, risk, payload);
      if key.claudeVisible && claude.Failed? && lookup.Failed? then
        (Tuple(ScoresOf(info), None, None, Some("both sources failed: " + claude.message + "; " + lookup.message)), false)
      else if key.claudeVisible && claude.Failed? then
        (Tuple(ScoresOf(info), Some(info), None, Some("claude source failed: " + claude.message)), false)
      else if lookup.Failed? then
        (Tuple(ScoresOf(info), Some(info), None, Some("lookup source failed: " + lookup.message)), false)
      else
        (Tuple(ScoresOf(info), Some(info), None, None), true)
  }
}
