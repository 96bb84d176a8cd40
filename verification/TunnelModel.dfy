/** Tunnels and the descriptions by which the manager tells whether a component is still the right one:
 internal/model/tunnel.go. */
module TunnelModel {
  import opened GoStrings

  import CustomMapping

  type Id = nat
  type Player = nat

  datatype Tunnel = Tunnel(
    id: Id,
    source: string,
    endpoint: string,
    enabled: bool,
    sender: Player,
    receiver: Player,
    tunnelType: nat,
    username: string,
    password: string,
    isCompressed: bool,
    encryptionMethod: string,
    mapping: CustomMapping.Mapping)

  function BoolText(b: bool): string {
    if b then "true" else "false"
  }

  /** Unknown types are all written as 255. */
  function WireType(t: nat): nat {
    if t <= 4 then t else 255
  }

  datatype Label =
    | IdIs | SourceIs | EndpointIs | SenderIs | ReceiverIs | TunnelTypeIs | UsernameIs | PasswordIs | EnabledIs
    | IsCompressedIs | EncryptionMethodIs | CustomMappingIs

  datatype Fields = Nil | Field(name: Label, value: string, rest: Fields)

  function LabelText(l: Label): string {
    match l
    case IdIs => "id:"
    case SourceIs => "-source:"
    case EndpointIs => "-endpoint:"
    case SenderIs => "-sender:"
    case ReceiverIs => "-receiver:"
    case TunnelTypeIs => "-tunnel_type:"
    case UsernameIs => "-username:"
    case PasswordIs => "-password:"
    case EnabledIs => "-enabled:"
    case IsCompressedIs => "-is_compressed:"
    case EncryptionMethodIs => "-encryption_method:"
    case CustomMappingIs => "-custom_mapping:"
  }

  function Joined(text: Label -> string, f: Fields): string {
    match f
    case Nil => ""
    case Field(name, value, rest) => text(name) + (value + Joined(text, rest))
  }

  function Rendered(f: Fields): string {
    Joined(LabelText, f)
  }

  function OutletFields(t: Tunnel): Fields {
    Field(IdIs, Decimal(t.id), Field(SenderIs, Decimal(t.sender), Field(EnabledIs, BoolText(t.enabled), Nil)))
  }

  function OutletDescription(t: Tunnel): string {
    Rendered(OutletFields(t))
  }

  function InletFields(t: Tunnel): Fields {
    Field(IdIs, Decimal(t.id),
    Field(SourceIs, t.source,
    Field(EndpointIs, t.endpoint, Parties(t))))
  }

  function Parties(t: Tunnel): Fields {
    Field(SenderIs, Decimal(t.sender),
    Field(ReceiverIs, Decimal(t.receiver),
    Field(TunnelTypeIs, Decimal(WireType(t.tunnelType)), Credentials(t))))
  }

  function Credentials(t: Tunnel): Fields {
    Field(UsernameIs, t.username, Field(PasswordIs, t.password, Settings(t)))
  }

  function Settings(t: Tunnel): Fields {
    Field(EnabledIs, BoolText(t.enabled),
    Field(IsCompressedIs, BoolText(t.isCompressed),
    Field(EncryptionMethodIs, t.encryptionMethod,
    Field(CustomMappingIs, "[" + CustomMapping.Text(t.mapping) + "]", Nil))))
  }

  function InletDescription(t: Tunnel): string {
    Rendered(InletFields(t))
  }

  // ---------------------------------------------------------------- what a description says

  predicate OccursAt(text: string, part: string, i: nat) {
    i + |part| <= |text| && text[i..i + |part|] == part
  }

  predicate Contains(text: string, part: string) {
    exists i: nat :: i <= |text| && OccursAt(text, part, i)
  }

  predicate NoDash(text: string) {
    forall i :: 0 <= i < |text| ==> text[i] != '-'
  }

  /** A label after the first: a dash, and no other. */
  predicate Dashed(l: string) {
    l != "" && l[0] == '-' && NoDash(l[1..])
  }

  lemma ShortLabelDashed(l: Label)
    requires l in {SourceIs, EndpointIs, SenderIs, ReceiverIs, UsernameIs, PasswordIs, EnabledIs}
    ensures Dashed(LabelText(l))
  {
  }

  lemma LongLabelDashed(l: Label)
    requires l.TunnelTypeIs? || l.IsCompressedIs? || l.EncryptionMethodIs? || l.CustomMappingIs?
    ensures Dashed(LabelText(l))
  {
  }

  lemma LabelDashed(l: Label)
    requires !l.IdIs?
    ensures Dashed(LabelText(l))
  {
    if l.TunnelTypeIs? || l.IsCompressedIs? || l.EncryptionMethodIs? || l.CustomMappingIs? {
      LongLabelDashed(l);
    } else {
      ShortLabelDashed(l);
    }
  }

  lemma LabelsDashed()
    ensures forall l: Label :: !l.IdIs? ==> Dashed(LabelText(l))
  {
    forall l: Label | !l.IdIs?
      ensures Dashed(LabelText(l))
    {
      LabelDashed(l);
    }
  }

  /** A label cannot begin before the end of a longer value and still reach beyond it. */
  lemma LabelInside(x: string, y: string, l: string, r: string, q: string)
    requires Dashed(l) && |x| < |y| && x + (l + r) == y + (l + q)
    ensures Contains(y, l)
  {
    var a, b := x + (l + r), y + (l + q);
    assert a[|x|..|x| + |l|] == l;
    assert b[|y|] == l[0];
    forall i | |x| < i < |x| + |l|
      ensures a[i] != '-'
    {
      assert a[i] == l[1..][i - |x| - 1];
    }
    assert |x| + |l| <= |y|;
    assert y[|x|..|x| + |l|] == b[|x|..|x| + |l|];
    assert OccursAt(y, l, |x|);
  }

  /** The first place where the label stands tells where the value before it ends. */
  lemma SplitAtLabel(x: string, y: string, l: string, r: string, q: string)
    requires Dashed(l) && !Contains(x, l) && !Contains(y, l)
    requires x + (l + r) == y + (l + q)
    ensures x == y && l + r == l + q
  {
    if |x| < |y| {
      LabelInside(x, y, l, r, q);
    } else if |y| < |x| {
      LabelInside(y, x, l, q, r);
    }
    SameLengthSplit(x, y, l + r, l + q);
  }

  lemma SameLengthSplit(x: string, y: string, r: string, q: string)
    requires x + r == y + q && |x| == |y|
    ensures x == y && r == q
  {
    assert (x + r)[..|x|] == x && (y + q)[..|y|] == y;
    assert (x + r)[|x|..] == r && (y + q)[|y|..] == q;
  }

  predicate SameLabels(f: Fields, g: Fields) {
    match f
    case Nil => g.Nil?
    case Field(name, _, rest) => g.Field? && g.name == name && SameLabels(rest, g.rest)
  }

  /** No value contains the label of the next field. */
  predicate Clear(text: Label -> string, f: Fields) {
    f.Field? && f.rest.Field? ==>
      Dashed(text(f.rest.name)) && !Contains(f.value, text(f.rest.name)) && Clear(text, f.rest)
  }

  lemma {:induction false} JoinedDetermines(text: Label -> string, f: Fields, g: Fields)
    requires SameLabels(f, g) && Clear(text, f) && Clear(text, g) && Joined(text, f) == Joined(text, g)
    ensures f == g
  {
    if f.Field? {
      SameLengthSplit(text(f.name), text(g.name), f.value + Joined(text, f.rest), g.value + Joined(text, g.rest));
      if f.rest.Field? {
        var r, q := f.rest.value + Joined(text, f.rest.rest), g.rest.value + Joined(text, g.rest.rest);
        SplitAtLabel(f.value, g.value, text(f.rest.name), r, q);
        JoinedDetermines(text, f.rest, g.rest);
      } else {
        assert f.value + "" == f.value && g.value + "" == g.value;
      }
    }
  }

  lemma NoDashNoLabel(text: string, l: Label)
    requires NoDash(text) && !l.IdIs?
    ensures !Contains(text, LabelText(l))
  {
    LabelDashed(l);
    NoDashContainsNone(text, LabelText(l));
  }

  lemma NoDashContainsNone(text: string, l: string)
    requires NoDash(text) && Dashed(l)
    ensures !Contains(text, l)
  {
    forall i: nat
      ensures !OccursAt(text, l, i)
    {
      if i + |l| <= |text| {
        assert text[i..i + |l|][0] == text[i] != l[0];
      }
    }
  }

  lemma {:induction false} DecimalHasNoDash(n: nat)
    ensures NoDash(Decimal(n)) && Decimal(n) != ""
  {
    if n >= 10 {
      DecimalHasNoDash(n / 10);
    }
  }

  lemma {:induction false} DecimalDetermines(a: nat, b: nat)
    requires Decimal(a) == Decimal(b)
    ensures a == b
  {
    DecimalHasNoDash(a / 10);
    DecimalHasNoDash(b / 10);
    var x, y := Decimal(a), Decimal(b);
    assert x[|x| - 1] == ('0' as int + a % 10) as char && y[|y| - 1] == ('0' as int + b % 10) as char;
    if a >= 10 && b >= 10 {
      assert x[..|x| - 1] == Decimal(a / 10) && y[..|y| - 1] == Decimal(b / 10);
      DecimalDetermines(a / 10, b / 10);
    }
  }

  /** No text of the tunnel contains the label that follows it in a description. */
  predicate Unambiguous(t: Tunnel) {
    && !Contains(t.source, LabelText(EndpointIs)) && !Contains(t.endpoint, LabelText(SenderIs))
    && !Contains(t.username, LabelText(PasswordIs)) && !Contains(t.password, LabelText(EnabledIs))
    && !Contains(t.encryptionMethod, LabelText(CustomMappingIs))
  }

  lemma SettingsClear(t: Tunnel)
    requires !Contains(t.encryptionMethod, LabelText(CustomMappingIs))
    ensures Clear(LabelText, Settings(t))
  {
    LabelsDashed();
    NoDashNoLabel(BoolText(t.enabled), IsCompressedIs);
    NoDashNoLabel(BoolText(t.isCompressed), EncryptionMethodIs);
    var last := Field(CustomMappingIs, "[" + CustomMapping.Text(t.mapping) + "]", Nil);
    assert Clear(LabelText, Field(EncryptionMethodIs, t.encryptionMethod, last));
  }

  lemma PartiesClear(t: Tunnel)
    requires Clear(LabelText, Credentials(t))
    ensures Clear(LabelText, Parties(t))
  {
    LabelsDashed();
    DecimalHasNoDash(t.sender);
    NoDashNoLabel(Decimal(t.sender), ReceiverIs);
    DecimalHasNoDash(t.receiver);
    NoDashNoLabel(Decimal(t.receiver), TunnelTypeIs);
    DecimalHasNoDash(WireType(t.tunnelType));
    NoDashNoLabel(Decimal(WireType(t.tunnelType)), UsernameIs);
    assert Clear(LabelText, Field(TunnelTypeIs, Decimal(WireType(t.tunnelType)), Credentials(t)));
  }

  lemma InletFieldsClear(t: Tunnel)
    requires Unambiguous(t)
    ensures Clear(LabelText, InletFields(t))
  {
    LabelsDashed();
    SettingsClear(t);
    assert Clear(LabelText, Credentials(t));
    PartiesClear(t);
    DecimalHasNoDash(t.id);
    NoDashNoLabel(Decimal(t.id), SourceIs);
    assert Clear(LabelText, Field(EndpointIs, t.endpoint, Parties(t)));
  }

  lemma SameSettingsLabels(a: Tunnel, b: Tunnel)
    ensures SameLabels(Settings(a), Settings(b))
  {
    assert SameLabels(Settings(a).rest.rest, Settings(b).rest.rest);
  }

  lemma SameInletLabels(a: Tunnel, b: Tunnel)
    ensures SameLabels(InletFields(a), InletFields(b))
  {
    SameSettingsLabels(a, b);
    assert SameLabels(Credentials(a), Credentials(b));
    assert SameLabels(Parties(a).rest, Parties(b).rest);
    assert SameLabels(Parties(a), Parties(b));
    assert SameLabels(InletFields(a).rest, InletFields(b).rest);
  }

  lemma SameBracketed(x: string, y: string)
    requires "[" + x + "]" == "[" + y + "]"
    ensures x == y
  {
    var u, v := "[" + x + "]", "[" + y + "]";
    assert u[1..|u| - 1] == x && v[1..|v| - 1] == y;
  }

  predicate SameKind(a: Tunnel, b: Tunnel) {
    a.tunnelType == b.tunnelType || (a.tunnelType > 4 && b.tunnelType > 4)
  }

  /** Everything a tunnel says, its type as far as it is known. */
  predicate SaysTheSame(a: Tunnel, b: Tunnel) {
    a.(tunnelType := 0) == b.(tunnelType := 0) && SameKind(a, b)
  }

  /** The same but for mappings, which need only print alike. */
  predicate SaysNearlyTheSame(a: Tunnel, b: Tunnel) {
    && SaysTheSame(a.(mapping := map[]), b.(mapping := map[]))
    && CustomMapping.Text(a.mapping) == CustomMapping.Text(b.mapping)
  }

  /** Where no text of either tunnel holds the label that follows it, descriptions tell everything but the mapping. */
  lemma UnambiguousDescriptionDetermines(a: Tunnel, b: Tunnel)
    requires Unambiguous(a) && Unambiguous(b)
    ensures InletDescription(a) == InletDescription(b) <==> SaysNearlyTheSame(a, b)
  {
    if InletDescription(a) == InletDescription(b) {
      InletFieldsClear(a);
      InletFieldsClear(b);
      SameInletLabels(a, b);
      JoinedDetermines(LabelText, InletFields(a), InletFields(b));
      SameFieldsSayTheSame(a, b);
    } else {
      assert SaysNearlyTheSame(a, b) ==> InletFields(a) == InletFields(b);
    }
  }

  lemma SameFieldsSayTheSame(a: Tunnel, b: Tunnel)
    requires InletFields(a) == InletFields(b)
    ensures SaysNearlyTheSame(a, b)
  {
    DecimalDetermines(a.id, b.id);
    DecimalDetermines(a.sender, b.sender);
    DecimalDetermines(a.receiver, b.receiver);
    DecimalDetermines(WireType(a.tunnelType), WireType(b.tunnelType));
    assert Parties(a) == Parties(b) && Credentials(a) == Credentials(b) && Settings(a) == Settings(b);
    SameBracketed(CustomMapping.Text(a.mapping), CustomMapping.Text(b.mapping));
  }

  // ---------------------------------------------------------------- texts that run into each other

  function Addresses(t: Tunnel): string {
    t.source + (LabelText(EndpointIs) + t.endpoint)
  }

  function Account(t: Tunnel): string {
    t.username + (LabelText(PasswordIs) + t.password)
  }

  /** The fields of an inlet, with both addresses in one and username and password in one. */
  function CoarseFields(t: Tunnel): Fields {
    Field(IdIs, Decimal(t.id), Field(SourceIs, Addresses(t), CoarseParties(t)))
  }

  function CoarseParties(t: Tunnel): Fields {
    Field(SenderIs, Decimal(t.sender),
    Field(ReceiverIs, Decimal(t.receiver),
    Field(TunnelTypeIs, Decimal(WireType(t.tunnelType)), Field(UsernameIs, Account(t), Settings(t)))))
  }

  lemma JoinedAsOne(text: Label -> string, n: Label, m: Label, u: string, v: string, rest: Fields)
    ensures Joined(text, Field(n, u, Field(m, v, rest))) == Joined(text, Field(n, u + (text(m) + v), rest))
  {
    var l, r := text(m), Joined(text, rest);
    assert u + (l + (v + r)) == u + (l + v) + r;
  }

  lemma SameRest(text: Label -> string, name: Label, value: string, f: Fields, g: Fields)
    requires Joined(text, f) == Joined(text, g)
    ensures Joined(text, Field(name, value, f)) == Joined(text, Field(name, value, g))
  {
  }

  lemma CoarseFieldsDescribe(t: Tunnel)
    ensures Rendered(CoarseFields(t)) == InletDescription(t)
  {
    var kind := Decimal(WireType(t.tunnelType));
    var account := Field(UsernameIs, Account(t), Settings(t));
    JoinedAsOne(LabelText, UsernameIs, PasswordIs, t.username, t.password, Settings(t));
    SameRest(LabelText, TunnelTypeIs, kind, account, Credentials(t));
    SameRest(LabelText, ReceiverIs, Decimal(t.receiver), CoarseParties(t).rest.rest, Parties(t).rest.rest);
    SameRest(LabelText, SenderIs, Decimal(t.sender), CoarseParties(t).rest, Parties(t).rest);
    SameRest(LabelText, SourceIs, Addresses(t), CoarseParties(t), Parties(t));
    JoinedAsOne(LabelText, SourceIs, EndpointIs, t.source, t.endpoint, Parties(t));
    SameRest(LabelText, IdIs, Decimal(t.id), CoarseFields(t).rest, InletFields(t).rest);
  }

  /** Both addresses, both credentials and the encryption method end where they seem to end. */
  predicate Separable(t: Tunnel) {
    && !Contains(Addresses(t), LabelText(SenderIs))
    && !Contains(Account(t), LabelText(EnabledIs))
    && !Contains(t.encryptionMethod, LabelText(CustomMappingIs))
  }

  lemma CoarseFieldsClear(t: Tunnel)
    requires Separable(t)
    ensures Clear(LabelText, CoarseFields(t))
  {
    LabelsDashed();
    SettingsClear(t);
    assert Clear(LabelText, CoarseParties(t).rest.rest.rest);
    DecimalHasNoDash(WireType(t.tunnelType));
    NoDashNoLabel(Decimal(WireType(t.tunnelType)), UsernameIs);
    assert Clear(LabelText, CoarseParties(t).rest.rest);
    DecimalHasNoDash(t.receiver);
    NoDashNoLabel(Decimal(t.receiver), TunnelTypeIs);
    DecimalHasNoDash(t.sender);
    NoDashNoLabel(Decimal(t.sender), ReceiverIs);
    assert Clear(LabelText, CoarseParties(t));
    DecimalHasNoDash(t.id);
    NoDashNoLabel(Decimal(t.id), SourceIs);
    assert Clear(LabelText, CoarseFields(t).rest);
  }

  lemma SameCoarseLabels(a: Tunnel, b: Tunnel)
    ensures SameLabels(CoarseFields(a), CoarseFields(b))
  {
    SameSettingsLabels(a, b);
    assert SameLabels(CoarseParties(a).rest.rest, CoarseParties(b).rest.rest);
    assert SameLabels(CoarseParties(a), CoarseParties(b));
    assert SameLabels(CoarseFields(a).rest, CoarseFields(b).rest);
  }

  predicate SameCoarsely(a: Tunnel, b: Tunnel) {
    && a.id == b.id && Addresses(a) == Addresses(b) && a.sender == b.sender && a.receiver == b.receiver
    && SameKind(a, b) && Account(a) == Account(b) && a.enabled == b.enabled
    && a.isCompressed == b.isCompressed && a.encryptionMethod == b.encryptionMethod
    && CustomMapping.Text(a.mapping) == CustomMapping.Text(b.mapping)
  }

  lemma SameCoarseFields(a: Tunnel, b: Tunnel)
    ensures CoarseFields(a) == CoarseFields(b) <==> SameCoarsely(a, b)
  {
    if CoarseFields(a) == CoarseFields(b) {
      DecimalDetermines(a.id, b.id);
      DecimalDetermines(a.sender, b.sender);
      DecimalDetermines(a.receiver, b.receiver);
      DecimalDetermines(WireType(a.tunnelType), WireType(b.tunnelType));
      assert CoarseParties(a) == CoarseParties(b) && Settings(a) == Settings(b);
      SameBracketed(CustomMapping.Text(a.mapping), CustomMapping.Text(b.mapping));
    }
    assert SameCoarsely(a, b) ==> Settings(a) == Settings(b);
    assert SameCoarsely(a, b) ==> CoarseParties(a) == CoarseParties(b);
  }

  /**
   Inlets of separable tunnels are described alike exactly when the tunnels agree in everything but where the addresses,
   the credentials and the entries of the mapping are divided.
   */
  lemma InletDescriptionDetermines(a: Tunnel, b: Tunnel)
    requires Separable(a) && Separable(b)
    ensures InletDescription(a) == InletDescription(b) <==> SameCoarsely(a, b)
  {
    CoarseFieldsDescribe(a);
    CoarseFieldsDescribe(b);
    if InletDescription(a) == InletDescription(b) {
      CoarseFieldsClear(a);
      CoarseFieldsClear(b);
      SameCoarseLabels(a, b);
      JoinedDetermines(LabelText, CoarseFields(a), CoarseFields(b));
    }
    SameCoarseFields(a, b);
  }

  /** A label in a longer text that begins after the end of a shorter one and its label stands in what follows. */
  lemma LabelAfter(x: string, y: string, u: string, v: string, l: string)
    requires Dashed(l) && |x| < |u| && x + (l + y) == u + (l + v)
    ensures Contains(y, l)
  {
    var a, b := x + (l + y), u + (l + v);
    assert b[|u|..|u| + |l|] == l;
    assert b[|u|] == l[0];
    forall i | |x| < i < |x| + |l|
      ensures a[i] != '-'
    {
      assert a[i] == l[1..][i - |x| - 1];
    }
    var at := |u| - |x| - |l|;
    assert y[at..at + |l|] == a[|u|..|u| + |l|];
    assert OccursAt(y, l, at);
  }

  /** Two other texts with the label between them make up the same text. */
  predicate Redivided(x: string, y: string, l: string, u: string, v: string) {
    u + (l + v) == x + (l + y) && (u != x || v != y)
  }

  lemma EitherHolds(x: string, y: string, l: string, u: string, v: string)
    requires Dashed(l) && Redivided(x, y, l, u, v)
    ensures Contains(x, l) || Contains(y, l)
  {
    if |u| < |x| {
      LabelInside(u, x, l, v, y);
    } else if |u| > |x| {
      LabelAfter(x, y, u, v, l);
    } else {
      SameLengthSplit(u, x, l + v, l + y);
      SameLengthSplit(l, l, v, y);
    }
  }

  lemma LeftRedivided(p: string, q: string, y: string, l: string)
    requires l != ""
    ensures Redivided(p + (l + q), y, l, p, q + (l + y))
  {
    assert |p + (l + q)| > |p|;
  }

  lemma RightRedivided(x: string, p: string, q: string, l: string)
    requires l != ""
    ensures Redivided(x, p + (l + q), l, x + (l + p), q)
  {
    assert |x + (l + p)| > |x|;
  }

  lemma SplitAt(text: string, part: string, i: nat)
    requires OccursAt(text, part, i)
    ensures text == text[..i] + (part + text[i + |part|..])
  {
  }

  /** Two texts with a label between them can be divided otherwise exactly when one of them contains the label. */
  lemma RedividedIff(x: string, y: string, l: string)
    requires Dashed(l)
    ensures (exists u, v :: Redivided(x, y, l, u, v)) <==> Contains(x, l) || Contains(y, l)
  {
    if Contains(x, l) {
      var i: nat :| i <= |x| && OccursAt(x, l, i);
      SplitAt(x, l, i);
      LeftRedivided(x[..i], x[i + |l|..], y, l);
    } else if Contains(y, l) {
      var i: nat :| i <= |y| && OccursAt(y, l, i);
      SplitAt(y, l, i);
      RightRedivided(x, y[..i], y[i + |l|..], l);
    }
    forall u, v | Redivided(x, y, l, u, v)
      ensures Contains(x, l) || Contains(y, l)
    {
      EitherHolds(x, y, l, u, v);
    }
  }

  /** Another tunnel, of texts that end where they seem to end, has the same description. */
  ghost predicate HasDouble(t: Tunnel) {
    exists b :: Separable(b) && InletDescription(b) == InletDescription(t) && !SaysTheSame(b, t)
  }

  predicate Holds(x: string, y: string, l: Label) {
    Contains(x, LabelText(l)) || Contains(y, LabelText(l))
  }

  /** An address or a credential holds the label between the two, or the mapping prints like another. */
  predicate Divisible(t: Tunnel) {
    var m := t.mapping;
    || Holds(t.source, t.endpoint, EndpointIs) || Holds(t.username, t.password, PasswordIs)
    || |m| > 1 || exists k :: k in m && (':' in k || ':' in m[k])
  }

  lemma DoubleFound(t: Tunnel, b: Tunnel)
    requires Separable(t) && SameCoarsely(b, t) && !SaysTheSame(b, t)
    ensures HasDouble(t)
  {
    InletDescriptionDetermines(b, t);
  }

  lemma DivisibleHasDouble(t: Tunnel)
    requires Separable(t) && Divisible(t)
    ensures HasDouble(t)
  {
    LabelsDashed();
    var e, p := LabelText(EndpointIs), LabelText(PasswordIs);
    if Holds(t.source, t.endpoint, EndpointIs) {
      RedividedIff(t.source, t.endpoint, e);
      var u, v :| Redivided(t.source, t.endpoint, e, u, v);
      DoubleFound(t, t.(source := u, endpoint := v));
    } else if Holds(t.username, t.password, PasswordIs) {
      RedividedIff(t.username, t.password, p);
      var u, v :| Redivided(t.username, t.password, p, u, v);
      DoubleFound(t, t.(username := u, password := v));
    } else {
      CustomMapping.HasDoubleIff(t.mapping);
      var m :| m != t.mapping && CustomMapping.Text(m) == CustomMapping.Text(t.mapping);
      DoubleFound(t, t.(mapping := m));
    }
  }

  lemma DoubleIsDivisible(t: Tunnel, b: Tunnel)
    requires SameCoarsely(b, t) && !SaysTheSame(b, t)
    ensures Divisible(t)
  {
    LabelsDashed();
    CustomMapping.HasDoubleIff(t.mapping);
    if b.source != t.source || b.endpoint != t.endpoint {
      EitherHolds(t.source, t.endpoint, LabelText(EndpointIs), b.source, b.endpoint);
    } else if b.username != t.username || b.password != t.password {
      EitherHolds(t.username, t.password, LabelText(PasswordIs), b.username, b.password);
    } else {
      assert b.mapping != t.mapping;
    }
  }

  /**
   A separable tunnel has a double exactly when an address contains the label of the endpoint, a credential contains the
   label of the password, or its mapping has several entries or a colon within its only one.
   */
  lemma HasDoubleIff(t: Tunnel)
    requires Separable(t)
    ensures HasDouble(t) <==> Divisible(t)
  {
    if Divisible(t) {
      DivisibleHasDouble(t);
    }
    if HasDouble(t) {
      var b :| Separable(b) && InletDescription(b) == InletDescription(t) && !SaysTheSame(b, t);
      InletDescriptionDetermines(b, t);
      DoubleIsDivisible(t, b);
    }
  }

  /** All that stands between the endpoint and the username. */
  function Between(t: Tunnel): string {
    LabelText(SenderIs) + (Decimal(t.sender) + (LabelText(ReceiverIs) + (Decimal(t.receiver)
    + (LabelText(TunnelTypeIs) + (Decimal(WireType(t.tunnelType)) + LabelText(UsernameIs))))))
  }

  lemma PartiesText(t: Tunnel)
    ensures Joined(LabelText, Parties(t))
         == Between(t) + (t.username + Joined(LabelText, Field(PasswordIs, t.password, Settings(t))))
  {
    var rest := t.username + Joined(LabelText, Field(PasswordIs, t.password, Settings(t)));
    assert Joined(LabelText, Credentials(t)) == LabelText(UsernameIs) + rest;
    assert Joined(LabelText, Parties(t).rest) == LabelText(ReceiverIs) + (Decimal(t.receiver)
      + (LabelText(TunnelTypeIs) + (Decimal(WireType(t.tunnelType)) + (LabelText(UsernameIs) + rest))));
    Sevenfold(LabelText(SenderIs), Decimal(t.sender), LabelText(ReceiverIs), Decimal(t.receiver),
      LabelText(TunnelTypeIs), Decimal(WireType(t.tunnelType)), LabelText(UsernameIs), rest);
  }

  lemma Sevenfold(a: string, b: string, c: string, d: string, e: string, f: string, g: string, rest: string)
    ensures a + (b + (c + (d + (e + (f + g))))) + rest == a + (b + (c + (d + (e + (f + (g + rest))))))
  {
  }

  lemma Regrouped(e: string, f: string, u: string, g: string, v: string, rest: string)
    ensures e + (f + u) + (g + (v + rest)) == e + (f + (u + (g + v) + rest))
  {
  }

  /**
   Separable texts matter: when an endpoint contains all that may stand between an endpoint and a username, the tunnel
   with the shorter endpoint and the longer username has the same description.
   */
  lemma EndpointsCollide(t: Tunnel, other: Tunnel, short: string, user: string)
    requires t.endpoint == short + (Between(other) + user)
    ensures var b := t.(endpoint := short, sender := other.sender, receiver := other.receiver,
        tunnelType := other.tunnelType, username := user + (Between(t) + t.username));
      InletDescription(b) == InletDescription(t) && b.endpoint != t.endpoint
  {
    var b := t.(endpoint := short, sender := other.sender, receiver := other.receiver,
      tunnelType := other.tunnelType, username := user + (Between(t) + t.username));
    var rest := Joined(LabelText, Field(PasswordIs, t.password, Settings(t)));
    assert Settings(b) == Settings(t) && Between(b) == Between(other);
    PartiesText(t);
    PartiesText(b);
    Regrouped(short, Between(other), user, Between(t), t.username, rest);
    assert t.endpoint + Joined(LabelText, Parties(t)) == b.endpoint + Joined(LabelText, Parties(b));
    SameRest(LabelText, SourceIs, t.source, InletFields(t).rest.rest, InletFields(b).rest.rest);
    SameRest(LabelText, IdIs, Decimal(t.id), InletFields(t).rest, InletFields(b).rest);
    assert |short| < |t.endpoint|;
  }

  /** Outlets are described alike exactly when id, sender and enabled agree. */
  lemma OutletDescriptionDetermines(a: Tunnel, b: Tunnel)
    ensures OutletDescription(a) == OutletDescription(b)
       <==> a.id == b.id && a.sender == b.sender && a.enabled == b.enabled
  {
    if OutletDescription(a) == OutletDescription(b) {
      forall t: Tunnel
        ensures Clear(LabelText, OutletFields(t))
      {
        DecimalHasNoDash(t.id);
        NoDashNoLabel(Decimal(t.id), SenderIs);
        DecimalHasNoDash(t.sender);
        NoDashNoLabel(Decimal(t.sender), EnabledIs);
        LabelsDashed();
        assert Clear(LabelText, OutletFields(t).rest);
      }
      assert SameLabels(OutletFields(a).rest, OutletFields(b).rest);
      JoinedDetermines(LabelText, OutletFields(a), OutletFields(b));
      DecimalDetermines(a.id, b.id);
      DecimalDetermines(a.sender, b.sender);
      assert BoolText(a.enabled) == BoolText(b.enabled);
    }
  }

  lemma MovedText(text: Label -> string, n: Label, m: Label, u: string, v: string, w: string, rest: Fields)
    ensures Joined(text, Field(n, u + text(m) + v, Field(m, w, rest)))
         == Joined(text, Field(n, u, Field(m, v + text(m) + w, rest)))
  {
    var l, r := text(m), Joined(text, rest);
    assert u + l + v + (l + (w + r)) == u + (l + (v + l + w + r));
  }

  /** Part of the username of one tunnel at the head of the other's password. */
  function Shifted(t: Tunnel, user: string, more: string): Tunnel {
    t.(username := user, password := more + LabelText(PasswordIs) + t.password)
  }

  /**
   The double of a tunnel whose username contains the label of the password, whatever else its texts contain.
   */
  lemma UsernamesCollide(t: Tunnel, user: string, more: string)
    requires t.username == user + LabelText(PasswordIs) + more
    ensures InletDescription(Shifted(t, user, more)) == InletDescription(t) && Shifted(t, user, more) != t
  {
    var o := Shifted(t, user, more);
    MovedText(LabelText, UsernameIs, PasswordIs, user, more, t.password, Settings(t));
    SameCredentials(t, o);
    assert |user| < |t.username|;
  }

  lemma SameCredentials(t: Tunnel, o: Tunnel)
    requires o.(username := t.username, password := t.password) == t
    requires Joined(LabelText, Credentials(t)) == Joined(LabelText, Credentials(o))
    ensures InletDescription(t) == InletDescription(o)
  {
    var kind := Decimal(WireType(t.tunnelType));
    SameRest(LabelText, TunnelTypeIs, kind, Credentials(t), Credentials(o));
    SameRest(LabelText, ReceiverIs, Decimal(t.receiver), Parties(t).rest.rest, Parties(o).rest.rest);
    SameRest(LabelText, SenderIs, Decimal(t.sender), Parties(t).rest, Parties(o).rest);
    SameRest(LabelText, EndpointIs, t.endpoint, Parties(t), Parties(o));
    SameRest(LabelText, SourceIs, t.source, InletFields(t).rest.rest, InletFields(o).rest.rest);
    SameRest(LabelText, IdIs, Decimal(t.id), InletFields(t).rest, InletFields(o).rest);
  }
}
