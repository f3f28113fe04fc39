/** Which items share a fee unit or a seat: what equality of their keys means. */
module BillingKeys {
  import opened BillingModel
  import opened Options

  // ---- The fields a key names ----

  datatype Field = Entitlement | Token | BoundUser | Redeemer | BoundAccount | Deployment | BoundDeployment

  function Prefix(f: Field): string {
    match f
    case Entitlement => "entitlement_id:"
    case Token => "token_id:"
    case BoundUser => "bound_user_id:"
    case Redeemer => "redeemed_by_telegram_id:"
    case BoundAccount => "bound_account_id:"
    case Deployment => "deployment_id:"
    case BoundDeployment => "bound_deployment_id:"
  }

  /** The first and the seventh character tell the prefixes apart. */
  lemma PrefixMark(f: Field)
    ensures |Prefix(f)| >= 7
    ensures Prefix(f)[0] == (match f
                             case Entitlement => 'e' case Token => 't' case BoundUser => 'b' case Redeemer => 'r'
                             case BoundAccount => 'b' case Deployment => 'd' case BoundDeployment => 'b')
    ensures f.BoundUser? ==> Prefix(f)[6] == 'u'
    ensures f.BoundAccount? ==> Prefix(f)[6] == 'a'
    ensures f.BoundDeployment? ==> Prefix(f)[6] == 'd'
  {
  }

  lemma FirstPart<T>(a: seq<T>, b: seq<T>, c: seq<T>)
    ensures |a| >= 7 ==> (a + b)[0] == a[0] && (a + b)[6] == a[6]
    ensures a + b == a + c ==> b == c
  {
    assert (a + b)[|a|..] == b && (a + c)[|a|..] == c;
  }

  lemma PrefixedInjective(f: Field, x: string, g: Field, y: string)
    ensures Prefix(f) + x == Prefix(g) + y <==> f == g && x == y
    ensures Prefix(f) + x != ""
  {
    PrefixMark(f);
    PrefixMark(g);
    FirstPart(Prefix(f), x, y);
    FirstPart(Prefix(g), y, x);
  }

  // ---- Users and fee units ----

  /** Whom an item belongs to: the first of these identifiers it has. */
  predicate SameUser(a: Item, b: Item) {
    if a.boundUserId != "" || b.boundUserId != "" then a.boundUserId == b.boundUserId
    else if a.redeemedByTelegramId != "" || b.redeemedByTelegramId != "" then
      a.redeemedByTelegramId == b.redeemedByTelegramId
    else if a.boundAccountId != "" || b.boundAccountId != "" then a.boundAccountId == b.boundAccountId
    else a.tokenId == b.tokenId
  }

  /** The same entitlement; without one the same token; without either the same user. */
  predicate SameFeeUnit(a: Item, b: Item) {
    if a.entitlementId != "" || b.entitlementId != "" then a.entitlementId == b.entitlementId
    else if a.tokenId != "" || b.tokenId != "" then a.tokenId == b.tokenId
    else SameUser(a, b)
  }

  function UserField(it: Item): (Field, string) {
    if it.boundUserId != "" then (BoundUser, it.boundUserId)
    else if it.redeemedByTelegramId != "" then (Redeemer, it.redeemedByTelegramId)
    else if it.boundAccountId != "" then (BoundAccount, it.boundAccountId)
    else (Token, it.tokenId)
  }

  function Named(named: (Field, string)): string {
    if named.1 == "" then "" else Prefix(named.0) + named.1
  }

  lemma NamedInjective(a: (Field, string), b: (Field, string))
    ensures Named(a) == Named(b) <==> a == b || a.1 == b.1 == ""
  {
    PrefixedInjective(a.0, a.1, b.0, b.1);
  }

  lemma SameUserField(a: Item, b: Item)
    ensures SameUser(a, b) <==> UserField(a) == UserField(b) || UserField(a).1 == UserField(b).1 == ""
  {
  }

  /** Two items have one user key exactly when they belong to the same user. */
  lemma UserKeysAgreeExactlyWhen(a: Item, b: Item)
    ensures UserKey(a) == UserKey(b) <==> SameUser(a, b)
  {
    NamedInjective(UserField(a), UserField(b));
    SameUserField(a, b);
    assert UserKey(a) == Named(UserField(a)) && UserKey(b) == Named(UserField(b));
  }

  function FeeField(it: Item): (Field, string) {
    if it.entitlementId != "" then (Entitlement, it.entitlementId)
    else if it.tokenId != "" then (Token, it.tokenId)
    else UserField(it)
  }

  lemma SameFeeField(a: Item, b: Item)
    ensures SameFeeUnit(a, b) <==> FeeField(a) == FeeField(b) || FeeField(a).1 == FeeField(b).1 == ""
  {
    SameUserField(a, b);
  }

  /**
   * Two items are one fee unit exactly when they have the same entitlement, token or user, looked for in this order.
   */
  lemma FeeKeysAgreeExactlyWhen(a: Item, b: Item)
    ensures FeeKey(a) == FeeKey(b) <==> SameFeeUnit(a, b)
  {
    NamedInjective(FeeField(a), FeeField(b));
    SameFeeField(a, b);
    assert FeeKey(a) == Named(FeeField(a)) && FeeKey(b) == Named(FeeField(b));
  }

  // ---- Seats ----

  /** The item names a user, not only a token, and a bot. */
  predicate HasUserAndBot(it: Item) {
    it.botCode != "" && (it.boundUserId != "" || it.redeemedByTelegramId != "" || it.boundAccountId != "")
  }

  /**
   * The same user with the same bot; else the same deployment; else the same bot of the same token, or the same user.
   */
  predicate SameSeat(a: Item, b: Item) {
    if HasUserAndBot(a) || HasUserAndBot(b) then
      HasUserAndBot(a) && HasUserAndBot(b) && SameUser(a, b) && a.botCode == b.botCode
    else if a.deploymentId != "" || b.deploymentId != "" then a.deploymentId == b.deploymentId
    else if a.boundDeploymentId != "" || b.boundDeploymentId != "" then a.boundDeploymentId == b.boundDeploymentId
    else SameUser(a, b) && (UserKey(a) == "" || a.botCode == b.botCode)
  }

  /** No identifier of a user or token contains the separator. */
  predicate PlainUser(it: Item) {
    ':' !in it.boundUserId && ':' !in it.redeemedByTelegramId && ':' !in it.boundAccountId && ':' !in it.tokenId
  }

  function BotPart(bot: string): string {
    if bot == "" then "" else ":bot:" + bot
  }

  lemma ShorterHead(x: string, u: string, y: string, v: string)
    requires |x| < |y| && ':' !in y && (u != "" ==> u[0] == ':')
    ensures x + u != y + v
  {
    assert (y + v)[|x|] == y[|x|] && y[|x|] in y;
    if u != "" {
      assert (x + u)[|x|] == u[0];
    }
  }

  lemma BotPartInjective(x: string, bot: string, y: string, bot': string)
    requires ':' !in x && ':' !in y
    ensures x + BotPart(bot) == y + BotPart(bot') <==> x == y && bot == bot'
  {
    if |x| < |y| {
      ShorterHead(x, BotPart(bot), y, BotPart(bot'));
    } else if |y| < |x| {
      ShorterHead(y, BotPart(bot'), x, BotPart(bot));
    } else if x + BotPart(bot) == y + BotPart(bot') {
      assert x == (x + BotPart(bot))[..|x|] == y;
      FirstPart(x, BotPart(bot), BotPart(bot'));
      FirstPart(":bot:", bot, bot');
    }
  }

  /** What a seat key names: a field, and the bot if it counts. */
  function SeatField(it: Item): (Field, string, string) {
    if HasUserAndBot(it) then (UserField(it).0, UserField(it).1, it.botCode)
    else if it.deploymentId != "" then (Deployment, it.deploymentId, "")
    else if it.boundDeploymentId != "" then (BoundDeployment, it.boundDeploymentId, "")
    else (UserField(it).0, UserField(it).1, if UserField(it).1 == "" then "" else it.botCode)
  }

  function SeatText(seat: (Field, string, string)): string {
    if seat.1 == "" then "" else Prefix(seat.0) + (seat.1 + BotPart(seat.2))
  }

  lemma SeatKeyText(it: Item)
    ensures SeatKey(it) == SeatText(SeatField(it))
  {
    assert SeatField(it).2 == "" ==> SeatField(it).1 + "" == SeatField(it).1;
  }

  lemma SameSeatField(a: Item, b: Item)
    ensures SameSeat(a, b) <==> SeatField(a) == SeatField(b) || SeatField(a).1 == SeatField(b).1 == ""
  {
    SameUserField(a, b);
  }

  /** Deployments may be named at will; the identifier in front of a bot must not contain the separator. */
  lemma SeatTextInjective(a: (Field, string, string), b: (Field, string, string))
    requires a.2 != "" || b.2 != "" ==> a.0 != b.0 || (':' !in a.1 && ':' !in b.1)
    requires a.1 == "" ==> a.2 == ""
    requires b.1 == "" ==> b.2 == ""
    ensures SeatText(a) == SeatText(b) <==> a == b || a.1 == b.1 == ""
  {
    PrefixedInjective(a.0, a.1 + BotPart(a.2), b.0, b.1 + BotPart(b.2));
    if a.2 == "" && b.2 == "" {
      assert a.1 + "" == a.1 && b.1 + "" == b.1;
    } else if a.0 == b.0 {
      BotPartInjective(a.1, a.2, b.1, b.2);
    }
  }

  /** Two items share a seat key exactly when they share a seat, as long as no user is named with a colon. */
  lemma SeatKeysAgreeExactlyWhen(a: Item, b: Item)
    requires PlainUser(a) && PlainUser(b)
    ensures SeatKey(a) == SeatKey(b) <==> SameSeat(a, b)
  {
    SeatKeyText(a);
    SeatKeyText(b);
    SameSeatField(a, b);
    SeatTextInjective(SeatField(a), SeatField(b));
  }

  function Bound(user: string, bot: string): Item {
    Item(user, "", "", "", "", bot, "", "", None, None, None, None)
  }

  /** With a colon, the seats of two users can get one key. */
  lemma SeatKeysCanCollide(u: string, x: string, y: string)
    requires u != "" && x != "" && y != ""
    ensures var a, b := Bound(u, x + ":bot:" + y), Bound(u + ":bot:" + x, y);
            SeatKey(a) == SeatKey(b) && !SameSeat(a, b)
  {
    assert "bound_user_id:" + u + (":bot:" + (x + ":bot:" + y)) == "bound_user_id:" + (u + ":bot:" + x) + (":bot:" + y);
    assert |u + ":bot:" + x| > |u|;
  }
}
