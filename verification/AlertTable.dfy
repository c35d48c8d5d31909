/**
 * Rows of the `alerts` table and the semantic identity by which one Event Alert
 * suppresses another (bot/db/alerts.py, bot/alerts.py).
 *
 * Times are microseconds on one UTC clock.
 */
module AlertTable {
  import opened Prelude

  const SECOND: int := 1_000_000
  const HEARTBEAT_SILENCE: int := 86400 * SECOND
  const HEARTBEAT_MAX_AGE: int := 7200 * SECOND
  const PRICE_UPTREND: string := "price_uptrend"
  const PRICE_DOWNTREND: string := "price_downtrend"

  datatype Kind = EventAlert | Heartbeat

  datatype Status = Pending | RetryPending | Sent | Failed

  /** Sign of the analysed market window stored in a row's numeric context. */
  datatype Move = NoMove | Up | Down

  /** What a delivery carries of its event: the key of the stored market event, the family
      written to the outcome row, and the family and move written to the numeric context. */
  datatype EventContext = EventContext(
    eventKey: Option<string>,
    contextFamily: Option<string>,
    move: Move)

  datatype AlertRow = AlertRow(
    user: nat,
    symbol: string,
    kind: Kind,
    refId: nat,
    status: Status,
    createdAt: int,
    sentAt: Option<int>,
    finalFailed: bool,
    context: EventContext,
    outcomeFamily: Option<string>)
  {
    /** coalesce(sent_at, created_at) */
    function SentTime(): int {
      if sentAt.Some? then sentAt.value else createdAt
    }
  }

  type Table = map<nat, AlertRow>

  /** What the canonicaliser reads off a raw key and the wording around it: the normalised key text,
      whether that looks random, the family the word lists find, and the key made of title and body
      for a text that cannot serve. */
  datatype Wording = Wording(text: string, random: bool, found: Option<string>, fallback: string)

  /** The deployment: cooldown length in microseconds, `strip().lower()`, `normalize_symbol`, and the
      canonicaliser's reading of a key with no wording around it. */
  datatype Policy = Policy(
    cooldown: nat,
    normalise: string -> string,
    coin: string -> string,
    wording: (string, string) -> Wording)

  /** `str(value or "").strip().lower() or None` */
  function Cleaned(policy: Policy, value: Option<string>): Option<string> {
    if value.None? || policy.normalise(value.value) == "" then None else Some(policy.normalise(value.value))
  }

  predicate IsPriceFamily(family: Option<string>) {
    family == Some(PRICE_UPTREND) || family == Some(PRICE_DOWNTREND)
  }

  function DirectionalFamily(move: Move): Option<string> {
    match move
    case NoMove => None
    case Up => Some(PRICE_UPTREND)
    case Down => Some(PRICE_DOWNTREND)
  }

  /** `word(_|$)` at the start of a text. */
  predicate Leads(text: string, word: string) {
    word <= text && (|text| == |word| || text[|word|] == '_')
  }

  /** The direction a key text like `btc_down_0_05_in_the_last_3_hours` names by itself. */
  function TextTrend(coin: string, text: string): (r: Option<string>)
    ensures r.Some? ==> IsPriceFamily(r)
  {
    if Leads(text, coin + "_down") then Some(PRICE_DOWNTREND)
    else if Leads(text, coin + "_up") then Some(PRICE_UPTREND)
    else None
  }

  predicate IsPriceKey(coin: string, text: string) {
    text == coin + "_" + PRICE_UPTREND || text == coin + "_" + PRICE_DOWNTREND
  }

  /** The family of an event: a price family follows the sign of the analysed window, whatever the
      wording says. */
  function SemanticFamily(policy: Policy, symbol: string, w: Wording, move: Move): Option<string> {
    var coin, actual := policy.coin(symbol), DirectionalFamily(move);
    var named := if TextTrend(coin, w.text).Some? then TextTrend(coin, w.text) else w.found;
    if actual.Some? && (IsPriceFamily(named) || IsPriceKey(coin, w.text)) then actual else named
  }

  /** The key of an event: coin and family if there is one, else the text, else the fallback. */
  function CanonicalKey(policy: Policy, symbol: string, w: Wording, move: Move): string {
    var coin, family := policy.coin(symbol), SemanticFamily(policy, symbol, w, move);
    var text := if w.text == coin + "_news_catalyst" && family.None? then coin + "_market_event" else w.text;
    if family.Some? && family.value != "" then coin + "_" + family.value
    else if text == "" || w.random then w.fallback
    else text
  }

  function KeyFamily(policy: Policy, symbol: string, key: string, move: Move): Option<string> {
    SemanticFamily(policy, symbol, policy.wording(symbol, key), move)
  }

  /** Family of the event being delivered now. */
  function CurrentFamily(policy: Policy, symbol: string, key: string, family: Option<string>): Option<string> {
    var given := Cleaned(policy, family);
    if given.Some? || key == "" then given
    else
      var inferred := KeyFamily(policy, symbol, key, NoMove);
      if IsPriceFamily(inferred) then inferred else None
  }

  /** First usable of two optional strings (Python `or`). */
  function FirstOf(a: Option<string>, b: Option<string>): Option<string> {
    if a.Some? && a.value != "" then a else if b.Some? && b.value != "" then b else None
  }

  /** Family an earlier delivery counts as: stored, else recovered, then corrected by its own move. */
  function ResolvedFamily(policy: Policy, row: AlertRow): Option<string> {
    var stored := Cleaned(policy, FirstOf(row.outcomeFamily, row.context.contextFamily));
    var key := row.context.eventKey;
    var fromKey := if stored.None? && key.Some? && key.value != ""
                   then KeyFamily(policy, row.symbol, key.value, row.context.move) else stored;
    var recovered := if fromKey.None? then DirectionalFamily(row.context.move) else fromKey;
    if IsPriceFamily(recovered) && DirectionalFamily(row.context.move).Some?
    then DirectionalFamily(row.context.move) else recovered
  }

  /** Does the earlier delivery `row` carry the identity (key, family) of the current event? */
  predicate Matches(policy: Policy, row: AlertRow, key: string, current: Option<string>) {
    row.context.eventKey == Some(key) || (current.Some? && ResolvedFamily(policy, row) == current)
  }

  predicate SentTo(row: AlertRow, user: nat, symbol: string, kind: Kind) {
    row.user == user && row.symbol == symbol && row.kind == kind && row.status == Sent
  }

  /** A sent Event Alert of the same identity is younger than the cooldown. */
  ghost predicate InCooldown(policy: Policy, table: Table, user: nat, symbol: string, key: string,
      family: Option<string>, now: int)
  {
    key != "" && policy.cooldown > 0 &&
    exists id :: id in table && SentTo(table[id], user, symbol, EventAlert)
                 && Matches(policy, table[id], key, CurrentFamily(policy, symbol, key, family))
                 && now - table[id].SentTime() < policy.cooldown
  }

  // ---------- keys and families, case by case

  lemma LeadsMeans(text: string, word: string)
    ensures Leads(text, word) <==> text == word || word + "_" <= text
  {
    if word <= text && |text| > |word| {
      assert text[..|word|] == word && (text[|word|] == '_' ==> text[..|word| + 1] == word + "_");
    }
  }

  /** The families and keys of an event: about the price if its key text or the word lists say so, and
      then what the window says it is. */
  lemma KeyCases(policy: Policy, symbol: string, w: Wording, move: Move)
    ensures var coin, family := policy.coin(symbol), SemanticFamily(policy, symbol, w, move);
            var down := w.text == coin + "_down" || (coin + "_down") + "_" <= w.text;
            var up := w.text == coin + "_up" || (coin + "_up") + "_" <= w.text;
            var price := down || up || w.found in [Some("price_uptrend"), Some("price_downtrend")]
                || w.text == coin + "_" + "price_uptrend" || w.text == coin + "_" + "price_downtrend";
            && (price && move == Up ==> family == Some("price_uptrend"))
            && (price && move == Down ==> family == Some("price_downtrend"))
            && (down && move == NoMove ==> family == Some("price_downtrend"))
            && (up && !down && move == NoMove ==> family == Some("price_uptrend"))
            && (!down && !up && (move == NoMove || !price) ==> family == w.found)
    ensures var coin, family := policy.coin(symbol), SemanticFamily(policy, symbol, w, move);
            var key := CanonicalKey(policy, symbol, w, move);
            if family.Some? && family.value != "" then key == coin + "_" + family.value
            else if w.random || w.text == "" then key == w.fallback
            else if family.None? && w.text == coin + "_news_catalyst" then key == coin + "_market_event"
            else key == w.text
  {
    var coin := policy.coin(symbol);
    LeadsMeans(w.text, coin + "_down");
    LeadsMeans(w.text, coin + "_up");
    hide Leads;
  }

  /** The family of a recorded delivery: what was stored with it, a price family as its window says; if
      nothing was, the window's own where it has no key. */
  lemma FamilyCases(policy: Policy, row: AlertRow, family: string)
    requires family == "" || policy.normalise(family) == family
    requires if row.outcomeFamily in [None, Some("")] then
               row.context.contextFamily == (if family == "" then None else Some(family))
             else row.outcomeFamily == Some(family)
    ensures var resolved := ResolvedFamily(policy, row);
            && (family !in ["", "price_uptrend", "price_downtrend"] ==> resolved == Some(family))
            && (family in ["price_uptrend", "price_downtrend"] ==>
                  resolved == match row.context.move
                              case NoMove => Some(family)
                              case Up => Some("price_uptrend")
                              case Down => Some("price_downtrend"))
            && (family == "" && row.context.eventKey in [None, Some("")] ==>
                  resolved == match row.context.move
                              case NoMove => None
                              case Up => Some("price_uptrend")
                              case Down => Some("price_downtrend"))
            && (family == "" && row.context.eventKey !in [None, Some("")] ==>
                  var named := SemanticFamily(policy, row.symbol,
                      policy.wording(row.symbol, row.context.eventKey.value), row.context.move);
                  resolved == match row.context.move
                              case NoMove => named
                              case Up => if named in [None,
                                  Some("price_downtrend")] then Some("price_uptrend") else named
                              case Down =>
                                if named in [None, Some("price_uptrend")] then Some("price_downtrend") else named)
  {
    hide SemanticFamily;
  }

  /** The family of the event being delivered: its own, or the price family its key names. */
  lemma CurrentCases(policy: Policy, symbol: string, key: string, family: Option<string>)
    ensures var current := CurrentFamily(policy, symbol, key, family);
            var named := SemanticFamily(policy, symbol, policy.wording(symbol, key), NoMove);
            if family.Some? && policy.normalise(family.value) != "" then
              current == Some(policy.normalise(family.value))
            else if key != "" && named in [Some("price_uptrend"), Some("price_downtrend")] then current == named
            else current == None
  {
    hide SemanticFamily;
  }
}
