/** `SettingsService`: the single business-settings record, created on first use. */
module SettingsService {
  import opened WorkOrders
  import opened Records
  import opened Persistence

  /** `SettingsInput`: the six editable values. */
  datatype SettingsInput = SettingsInput(
    businessName: string,
    taxId: string,
    address: string,
    phone: string,
    email: string,
    defaultTaxRate: real)

  /** The settings table once `currentSettings` has run: unchanged, or one defaults record. */
  function WithCurrent(store: seq<AppSettings>, now: Timestamp): (r: seq<AppSettings>)
    ensures r != []
    ensures store != [] ==> r == store
    ensures store == [] ==> r == [DefaultSettings(now)]
  {
    if store != [] then store else [DefaultSettings(now)]
  }

  /** A second `currentSettings` never inserts. */
  lemma WithCurrentIdempotent(store: seq<AppSettings>, now: Timestamp, later: Timestamp)
    ensures WithCurrent(WithCurrent(store, now), later) == WithCurrent(store, now)
  {
  }

  /** The defaults record: "Repair Manager", a 16% rate and empty contact fields. */
  lemma DefaultsAre(now: Timestamp)
    ensures var d := DefaultSettings(now);
      d.businessName == "Repair Manager" && d.defaultTaxRate == 0.16 && d.updatedAt == now
      && d.taxId == "" && d.address == "" && d.phone == "" && d.email == ""
  {
  }

  /** The record after `updateSettings` assigns it. */
  function Applied(s: AppSettings, input: SettingsInput, now: Timestamp): (r: AppSettings)
    ensures r.businessName == input.businessName && r.taxId == input.taxId
    ensures r.address == input.address && r.phone == input.phone && r.email == input.email
    ensures r.defaultTaxRate == input.defaultTaxRate && r.updatedAt == now
  {
    s.(businessName := input.businessName, taxId := input.taxId, address := input.address,
       phone := input.phone, email := input.email, defaultTaxRate := input.defaultTaxRate,
       updatedAt := now)
  }

  /** Every field is overwritten, so the outcome ignores the previous values and the last update wins. */
  lemma AppliedOverwritesAll(s: AppSettings, t: AppSettings, a: SettingsInput, b: SettingsInput, n: Timestamp, m: Timestamp)
    ensures Applied(s, a, n) == Applied(t, a, n)
    ensures Applied(Applied(s, a, n), b, m) == Applied(s, b, m)
  {
  }

  /** `currentSettings(in:)`: the first record, or a new defaults record inserted and saved. */
  method CurrentSettings(ctx: ModelContext, now: Timestamp) returns (current: AppSettings)
    modifies ctx`settings, ctx`commits
    ensures ctx.settings == WithCurrent(old(ctx.settings), now)
    ensures current == ctx.settings[0]
    ensures ctx.commits == if old(ctx.settings) == [] then old(ctx.commits) + 1 else old(ctx.commits)
  {
    if ctx.settings != [] {
      return ctx.settings[0];
    }
    var settings := DefaultSettings(now);
    ctx.settings := ctx.settings + [settings];
    ctx.Save();
    current := settings;
  }

  /**
   * `updateSettings(_:in:)`: assigns the input and the clock to the current record, the only
   * one touched; from an empty table this leaves exactly one record. `now` stands for both
   * readings of `Date()`.
   */
  method UpdateSettings(ctx: ModelContext, input: SettingsInput, now: Timestamp) returns (updated: AppSettings)
    modifies ctx`settings, ctx`commits
    ensures var before := WithCurrent(old(ctx.settings), now);
      ctx.settings == before[0 := Applied(before[0], input, now)]
    ensures updated == ctx.settings[0]
    ensures |ctx.settings| == if old(ctx.settings) == [] then 1 else |old(ctx.settings)|
    ensures ctx.commits == if old(ctx.settings) == [] then old(ctx.commits) + 2 else old(ctx.commits) + 1
  {
    var settings := CurrentSettings(ctx, now);
    settings := settings.(businessName := input.businessName);
    settings := settings.(taxId := input.taxId);
    settings := settings.(address := input.address);
    settings := settings.(phone := input.phone);
    settings := settings.(email := input.email);
    settings := settings.(defaultTaxRate := input.defaultTaxRate);
    settings := settings.(updatedAt := now);
    ctx.settings := ctx.settings[0 := settings];
    ctx.Save();
    updated := settings;
  }
}
