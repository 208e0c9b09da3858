/** The admin console's users tab: a per-user amount field, the `parseInt` of
    its text, the `n > 0` click guard, and the grant that writes the displayed
    balance plus the amount. */
module AdminUsers {
  import opened Wrappers
  import opened Types
  import opened Text
  import opened Store

  // ---------------------------------------------------------------- parseInt

  /** The value of `c` as a digit in base `radix` (10 or 16), if it is one. */
  function DigitValue(c: char, radix: nat): (v: Option<nat>)
    ensures v.Some? ==> v.value < radix
    ensures radix == 10 ==> (v.Some? <==> IsDigit(c))
  {
    if '0' <= c <= '9' && (c as int - '0' as int) < radix then Some(c as int - '0' as int)
    else if radix == 16 && 'a' <= c <= 'f' then Some(c as int - 'a' as int + 10)
    else if radix == 16 && 'A' <= c <= 'F' then Some(c as int - 'A' as int + 10)
    else None
  }

  /** The longest prefix of `s` made of base-`radix` digits. */
  function DigitRun(s: string, radix: nat): (r: string)
    ensures r <= s
    ensures forall k :: 0 <= k < |r| ==> DigitValue(r[k], radix).Some?
    ensures |r| < |s| ==> DigitValue(s[|r|], radix).None?
  {
    if s != [] && DigitValue(s[0], radix).Some? then [s[0]] + DigitRun(s[1..], radix) else []
  }

  lemma ProductNonNegative(a: nat, b: nat)
    ensures a * b >= 0
  {
  }

  /** The number a run of digits denotes, most significant digit first. */
  function RunValue(ds: string, radix: nat): nat
    requires forall k :: 0 <= k < |ds| ==> DigitValue(ds[k], radix).Some?
    decreases |ds|
  {
    if ds == [] then 0
    else
      var init := ds[..|ds| - 1];
      assert forall k :: 0 <= k < |init| ==> init[k] == ds[k];
      var high := RunValue(init, radix);
      ProductNonNegative(high, radix);
      high * radix + DigitValue(ds[|ds| - 1], radix).value
  }

  /** The digits after the sign: base 16 after a `0x`/`0X` prefix, base 10
      otherwise, up to the first non-digit; no digit at all is `NaN`, here `None`. */
  function ParseUnsigned(u: string): Option<nat> {
    var hex := |u| >= 2 && u[0] == '0' && (u[1] == 'x' || u[1] == 'X');
    var radix := if hex then 16 else 10;
    var ds := DigitRun(if hex then u[2..] else u, radix);
    if ds == [] then None else Some(RunValue(ds, radix))
  }

  /** `parseInt(s)` with no radix: skip leading whitespace, read an optional
      sign, then the digits. */
  function ParseInt(s: string): Option<int> {
    var t := TrimStart(s);
    if |t| > 0 && t[0] == '-' then
      match ParseUnsigned(t[1..])
      case Some(v) => Some(-(v as int))
      case None => None
    else if |t| > 0 && t[0] == '+' then
      match ParseUnsigned(t[1..])
      case Some(v) => Some(v as int)
      case None => None
    else
      match ParseUnsigned(t)
      case Some(v) => Some(v as int)
      case None => None
  }

  lemma {:induction false} RunValueOfDecimal(n: nat)
    ensures forall k :: 0 <= k < |Decimal(n)| ==> DigitValue(Decimal(n)[k], 10).Some?
    ensures RunValue(Decimal(n), 10) == n
  {
    if n >= 10 {
      RunValueOfDecimal(n / 10);
      var d := Decimal(n);
      assert d[..|d| - 1] == Decimal(n / 10);
    }
  }

  lemma {:induction false} DigitRunOfDigits(s: string, radix: nat)
    requires forall k :: 0 <= k < |s| ==> DigitValue(s[k], radix).Some?
    ensures DigitRun(s, radix) == s
    decreases |s|
  {
    if s != [] {
      DigitRunOfDigits(s[1..], radix);
    }
  }

  /** The digits `String(n)` writes read back as `n`. */
  lemma ParseUnsignedDecimal(n: nat)
    ensures ParseUnsigned(Decimal(n)) == Some(n)
  {
    RunValueOfDecimal(n);
    DigitRunOfDigits(Decimal(n), 10);
  }

  /** A text starting with a digit has no whitespace and no sign to skip. */
  lemma ParseIntOfUnsigned(s: string, v: nat)
    requires s != [] && IsDigit(s[0]) && ParseUnsigned(s) == Some(v)
    ensures ParseInt(s) == Some(v)
  {
    assert TrimStart(s) == s by { assert !IsJsWhitespace(s[0]); }
  }

  /** `parseInt` reads back what `String` writes. */
  lemma ParseIntDecimal(n: nat)
    ensures ParseInt(Decimal(n)) == Some(n)
  {
    ParseUnsignedDecimal(n);
    ParseIntOfUnsigned(Decimal(n), n);
  }

  /** `parseInt` reads a minus sign before what `String` writes as its negation. */
  lemma ParseIntNegatedDecimal(n: nat)
    ensures ParseInt("-" + Decimal(n)) == Some(-(n as int))
  {
    var d := Decimal(n);
    ParseUnsignedDecimal(n);
    var m := "-" + d;
    assert m[0] == '-' && m[1..] == d;
    assert TrimStart(m) == m by { assert !IsJsWhitespace(m[0]); }
    assert ParseUnsigned(m[1..]) == Some(n);
  }

  /** Digits that do not start with a decimal digit read as nothing: neither
      base 10 nor a `0x` prefix can begin. */
  lemma NoLeadingDigitNoNumber(u: string)
    requires u == [] || !IsDigit(u[0])
    ensures ParseUnsigned(u).None?
  {
  }

  /** Text without any decimal digit does not parse: `0x` needs its `0`. */
  lemma NoDigitNoNumber(s: string)
    requires forall k :: 0 <= k < |s| ==> !IsDigit(s[k])
    ensures ParseInt(s).None?
  {
    var t := TrimStart(s);
    NoLeadingDigitNoNumber(t);
    if |t| > 0 {
      assert t[0] == s[|s| - |t|];
      if |t| > 1 {
        assert t[1..][0] == s[|s| - |t| + 1];
      }
      NoLeadingDigitNoNumber(t[1..]);
    }
  }

  // ---------------------------------------------------------------- the amount field

  /** The `creditsToAdd` state after typing `text` into `user_id`'s field. */
  function SetAmountText(amounts: map<Uuid, string>, user_id: Uuid, text: string): (m: map<Uuid, string>)
    ensures m.Keys == amounts.Keys + {user_id} && m[user_id] == text
    ensures forall u :: u in amounts && u != user_id ==> m[u] == amounts[u]
  {
    amounts[user_id := text]
  }

  /** The click guard: `n = parseInt(creditsToAdd[user_id] ?? "0")`, and a
      grant only if `n > 0`. */
  function GrantAmount(amounts: map<Uuid, string>, user_id: Uuid): (g: Option<nat>)
    ensures g.Some? ==> g.value > 0
    ensures user_id !in amounts ==> g.None?
    ensures user_id in amounts ==>
      (g.Some? <==> ParseInt(amounts[user_id]).Some? && ParseInt(amounts[user_id]).value > 0)
    ensures g.Some? ==> ParseInt(amounts[user_id]) == Some(g.value as int)
  {
    var text := if user_id in amounts then amounts[user_id] else "0";
    assert ParseInt("0") == Some(0) by { ParseIntDecimal(0); }
    match ParseInt(text)
    case Some(n) => if n > 0 then Some(n as nat) else None
    case None => None
  }

  /** Typing a number into a field makes that user's click grant it, and
      leaves every other user's click as it was. */
  lemma TypedNumberIsGranted(amounts: map<Uuid, string>, user_id: Uuid, n: nat, other: Uuid)
    requires n > 0 && other != user_id
    ensures GrantAmount(SetAmountText(amounts, user_id, Decimal(n)), user_id) == Some(n)
    ensures GrantAmount(SetAmountText(amounts, user_id, Decimal(n)), other) == GrantAmount(amounts, other)
  {
    ParseIntDecimal(n);
  }

  /** A negative number or text with no digit is never granted. */
  lemma NoGrantWithoutPositive(amounts: map<Uuid, string>, user_id: Uuid, n: nat, text: string)
    requires forall k :: 0 <= k < |text| ==> !IsDigit(text[k])
    ensures GrantAmount(SetAmountText(amounts, user_id, "-" + Decimal(n)), user_id).None?
    ensures GrantAmount(SetAmountText(amounts, user_id, text), user_id).None?
  {
    ParseIntNegatedDecimal(n);
    NoDigitNoNumber(text);
  }

  // ---------------------------------------------------------------- the grant

  /** `addCredits.mutate({ userId, credits, current })`: writes `current + credits`
      to `userId`'s profile, whatever is stored there now; a failure is thrown. */
  method AddCredits(db: Backend, user_id: Uuid, credits: int, current: int, succeeded: bool) returns (r: MutationResult)
    modifies db`profiles
    ensures r == Updated <==> succeeded
    ensures db.profiles == if succeeded then SetCredits(old(db.profiles), user_id, current + credits) else old(db.profiles)
  {
    var ok := db.UpdateCredits(user_id, current + credits, succeeded);
    r := if ok then Updated else Error;
  }

  datatype GrantResult = NoGrant | Granted(amount: nat) | GrantFailed

  /** The add button's handler once the amount is read: no mutation without an
      amount, else the write of the displayed balance plus the amount. */
  method Grant(db: Backend, u: ProfileRow, g: Option<nat>, succeeded: bool) returns (r: GrantResult)
    modifies db`profiles
    ensures match g
      case None => r == NoGrant && db.profiles == old(db.profiles)
      case Some(n) =>
        if !succeeded then r == GrantFailed && db.profiles == old(db.profiles)
        else r == Granted(n) && db.profiles == SetCredits(old(db.profiles), u.user_id, u.listing_credits + n)
  {
    if g.None? {
      r := NoGrant;
    } else {
      var m := AddCredits(db, u.user_id, g.value, u.listing_credits, succeeded);
      r := if m == Updated then Granted(g.value) else GrantFailed;
    }
  }

  /** The add button of the row showing profile `u`: the mutation runs only for a
      positive amount, so this path never lowers a balance. */
  method ClickAdd(db: Backend, amounts: map<Uuid, string>, u: ProfileRow, succeeded: bool) returns (r: GrantResult)
    modifies db`profiles
    ensures match GrantAmount(amounts, u.user_id)
      case None => r == NoGrant && db.profiles == old(db.profiles)
      case Some(n) =>
        if !succeeded then r == GrantFailed && db.profiles == old(db.profiles)
        else
          && r == Granted(n)
          && u.listing_credits + n > u.listing_credits
          && db.profiles == SetCredits(old(db.profiles), u.user_id, u.listing_credits + n)
  {
    r := Grant(db, u, GrantAmount(amounts, u.user_id), succeeded);
  }
}
