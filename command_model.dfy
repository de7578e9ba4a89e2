/**
 * AR.Generator/Models/CommandModel.cs: what the code generator derives from one XML command of
 * one class of one project (feature). The constructor reads the names and the comment, then walks
 * the arguments once, collecting their models, the enum arguments and the size expression.
 */
module CommandModel {
  import opened Wrappers
  import opened Decimal
  import ARPacker
  import StringHelper
  import CommandArgModel

  datatype XmlProject = XmlProject(id: int, name: string)
  datatype XmlClass = XmlClass(id: int, name: string)
  /** `description` is `None` for a `null` description. */
  datatype XmlComment = XmlComment(description: Option<string>)
  /** `comment` and `args` are `None` where the XML leaves them out (`null`). */
  datatype XmlCommand = XmlCommand(id: int, name: string, comment: Option<XmlComment>, args: Option<seq<CommandArgModel.XmlArg>>)

  /** A `CommandEnumModel`, which the generator builds from the enum argument alone. */
  datatype EnumModel = EnumModel(arg: CommandArgModel.XmlArg)

  /** The get-only properties the templates read. */
  datatype Model = Model(
    args: seq<CommandArgModel.ArgModel>,
    classId: int,
    className: string,
    commandId: int,
    enums: seq<EnumModel>,
    featureId: int,
    namespace: string,
    size: string,
    summary: string)

  /** `HasEnums`. */
  predicate HasEnums(m: Model)
  {
    |m.enums| > 0
  }

  /* ---- What the loop accumulates, argument by argument ---- */

  /** `f` applied to each element from the first to the last; `None` as soon as `f` gives `None`. */
  function MappedAll<A, B>(f: A -> Option<B>, xs: seq<A>): Option<seq<B>>
  {
    if |xs| == 0 then Some([])
    else
      match MappedAll(f, xs[..|xs| - 1])
      case None => None
      case Some(ys) =>
        match f(xs[|xs| - 1])
        case None => None
        case Some(y) => Some(ys + [y])
  }

  /**
   * `Args`: one argument model per argument, in order; `None` where the constructor of an
   * argument model throws, which ends the command's constructor too.
   */
  function ArgModels(xs: seq<CommandArgModel.XmlArg>): Option<seq<CommandArgModel.ArgModel>>
  {
    MappedAll(CommandArgModel.Model, xs)
  }

  /** One more argument: what each accumulator of the loop gains. */
  lemma Step(xs: seq<CommandArgModel.XmlArg>, i: nat)
    requires i < |xs|
    ensures ArgModels(xs[..i + 1]) ==
      match ArgModels(xs[..i])
      case None => None
      case Some(models) =>
        match CommandArgModel.Model(xs[i])
        case None => None
        case Some(m) => Some(models + [m])
    ensures EnumsOf(xs[..i + 1]) == EnumsOf(xs[..i]) + (if xs[i].argType == CommandArgModel.Enum then [EnumModel(xs[i])] else [])
    ensures SizeExpression(xs[..i + 1]) == SizeExpression(xs[..i]) + " + " + CommandArgModel.Size(xs[i])
  {
    var prefix := xs[..i + 1];
    assert prefix[..i] == xs[..i] && prefix[i] == xs[i];
  }

  /** Once `f` has given `None`, the later elements change nothing. */
  lemma {:induction false} ThrownStaysThrown<A, B>(f: A -> Option<B>, xs: seq<A>, i: nat)
    requires i <= |xs| && MappedAll(f, xs[..i]).None?
    ensures MappedAll(f, xs).None?
    decreases |xs|
  {
    if i < |xs| {
      var init := xs[..|xs| - 1];
      assert init[..i] == xs[..i];
      ThrownStaysThrown(f, init, i);
    } else {
      assert xs[..i] == xs;
    }
  }

  /** `Enums`: an enum model for each enum argument, in order. */
  function EnumsOf(xs: seq<CommandArgModel.XmlArg>): seq<EnumModel>
  {
    if |xs| == 0 then []
    else
      var last := xs[|xs| - 1];
      EnumsOf(xs[..|xs| - 1]) + (if last.argType == CommandArgModel.Enum then [EnumModel(last)] else [])
  }

  /** `Size`: "0", then " + " and each argument's size. */
  function SizeExpression(xs: seq<CommandArgModel.XmlArg>): string
  {
    if |xs| == 0 then "0" else SizeExpression(xs[..|xs| - 1]) + " + " + CommandArgModel.Size(xs[|xs| - 1])
  }

  function ArgsOf(cmd: XmlCommand): seq<CommandArgModel.XmlArg>
  {
    match cmd.args
    case None => []
    case Some(xs) => xs
  }

  /** `Comment?.Description?.CleanUpXml() ?? ""`. */
  function SummaryOf(cmd: XmlCommand): string
  {
    match cmd.comment
    case None => ""
    case Some(c) =>
      match c.description
      case None => ""
      case Some(d) => StringHelper.CleanUpXml(d)
  }

  const NamespacePrefix := "ARParrot.Commands"

  /** The model the constructor builds; `None` where it throws. */
  function Spec(project: XmlProject, cls: XmlClass, cmd: XmlCommand): Option<Model>
  {
    match ArgModels(ArgsOf(cmd))
    case None => None
    case Some(args) =>
      Some(Model(
        args,
        cls.id,
        "Cmd" + StringHelper.Camel(cmd.name),
        cmd.id,
        EnumsOf(ArgsOf(cmd)),
        project.id,
        NamespacePrefix + "." + StringHelper.Camel(project.name) + "." + StringHelper.Camel(cls.name),
        SizeExpression(ArgsOf(cmd)),
        SummaryOf(cmd)))
  }

  /**
   * The constructor's `foreach`: each argument's model, enum model and size, in order. `args` is
   * `None` when an argument's constructor throws, and the loop then stops.
   */
  method Accumulate(xs: seq<CommandArgModel.XmlArg>)
      returns (args: Option<seq<CommandArgModel.ArgModel>>, enums: seq<EnumModel>, size: string)
    ensures args == ArgModels(xs)
    ensures args.Some? ==> enums == EnumsOf(xs) && size == SizeExpression(xs)
  {
    size := "0";
    var models := [];
    enums := [];
    for i := 0 to |xs|
      invariant ArgModels(xs[..i]) == Some(models)
      invariant enums == EnumsOf(xs[..i])
      invariant size == SizeExpression(xs[..i])
    {
      Step(xs, i);
      var model := CommandArgModel.Model(xs[i]);
      if model.None? {
        ThrownStaysThrown(CommandArgModel.Model, xs, i + 1);
        return None, enums, size;
      }
      models := models + [model.value];
      if xs[i].argType == CommandArgModel.Enum {
        enums := enums + [EnumModel(xs[i])];
      }
      size := size + " + " + model.value.size;
    }
    assert xs[..|xs|] == xs;
    args := Some(models);
  }

  /** The constructor; `None` where it throws. */
  method Build(project: XmlProject, cls: XmlClass, cmd: XmlCommand) returns (m: Option<Model>)
    ensures m == Spec(project, cls, cmd)
  {
    var className := "Cmd" + StringHelper.Camel(cmd.name);
    var ns := NamespacePrefix + "." + StringHelper.Camel(project.name) + "." + StringHelper.Camel(cls.name);
    var summary := SummaryOf(cmd);
    var args, enums, size := Some([]), [], "0";
    if cmd.args.Some? {
      args, enums, size := Accumulate(cmd.args.value);
    }
    if args.None? {
      return None;
    }
    m := Some(Model(args.value, cls.id, className, cmd.id, enums, project.id, ns, size, summary));
  }

  /* ---- Properties ---- */

  lemma {:induction false} MappedAllOneToOne<A, B>(f: A -> Option<B>, xs: seq<A>)
    ensures MappedAll(f, xs).Some? <==> forall i :: 0 <= i < |xs| ==> f(xs[i]).Some?
    ensures MappedAll(f, xs).Some? ==>
      && |MappedAll(f, xs).value| == |xs|
      && forall i :: 0 <= i < |xs| ==> f(xs[i]) == Some(MappedAll(f, xs).value[i])
  {
    if |xs| > 0 {
      var init := xs[..|xs| - 1];
      MappedAllOneToOne(f, init);
      assert forall i :: 0 <= i < |init| ==> init[i] == xs[i];
    }
  }

  /**
   * The argument models are built exactly when every argument has a description, and then
   * `Args` holds one model per argument, each the model of that argument.
   */
  lemma ArgModelsOneToOne(xs: seq<CommandArgModel.XmlArg>)
    ensures ArgModels(xs).Some? <==> forall i :: 0 <= i < |xs| ==> xs[i].description.Some?
    ensures ArgModels(xs).Some? ==>
      && |ArgModels(xs).value| == |xs|
      && forall i :: 0 <= i < |xs| ==> CommandArgModel.Model(xs[i]) == Some(ArgModels(xs).value[i])
  {
    MappedAllOneToOne(CommandArgModel.Model, xs);
    forall i | 0 <= i < |xs|
      ensures CommandArgModel.Model(xs[i]).Some? <==> xs[i].description.Some?
    {
      CommandArgModel.NamesAndSummary(xs[i]);
    }
  }

  /**
   * `Enums` holds exactly the enum arguments: every entry comes from an enum argument, every
   * enum argument has an entry, and there are no more entries than arguments.
   */
  lemma {:induction false} EnumsAreEnumArgs(xs: seq<CommandArgModel.XmlArg>)
    ensures |EnumsOf(xs)| <= |xs|
    ensures forall e :: e in EnumsOf(xs) ==> e.arg in xs && e.arg.argType == CommandArgModel.Enum
    ensures forall a :: a in xs && a.argType == CommandArgModel.Enum ==> EnumModel(a) in EnumsOf(xs)
  {
    if |xs| > 0 {
      var init := xs[..|xs| - 1];
      EnumsAreEnumArgs(init);
      assert xs == init + [xs[|xs| - 1]];
    }
  }

  /** `HasEnums` holds exactly when the command has an enum argument. */
  lemma HasEnumsIffEnumArg(project: XmlProject, cls: XmlClass, cmd: XmlCommand)
    ensures Spec(project, cls, cmd).Some? ==>
      (HasEnums(Spec(project, cls, cmd).value) <==> exists a :: a in ArgsOf(cmd) && a.argType == CommandArgModel.Enum)
  {
    EnumsAreEnumArgs(ArgsOf(cmd));
    if Spec(project, cls, cmd).Some? && HasEnums(Spec(project, cls, cmd).value) {
      var e := EnumsOf(ArgsOf(cmd))[0];
      assert e in EnumsOf(ArgsOf(cmd));
    }
  }

  /** Terms joined with " + ", from the first to the last. */
  function Joined(terms: seq<string>): string
    requires |terms| > 0
  {
    if |terms| == 1 then terms[0] else terms[0] + " + " + Joined(terms[1..])
  }

  lemma {:induction false} JoinedAppend(terms: seq<string>, t: string)
    requires |terms| > 0
    ensures Joined(terms + [t]) == Joined(terms) + " + " + t
  {
    if |terms| > 1 {
      assert (terms + [t])[1..] == terms[1..] + [t];
      JoinedAppend(terms[1..], t);
    }
  }

  /** The decimal widths the packer writes, one per argument. */
  function Widths(xs: seq<CommandArgModel.XmlArg>): (r: seq<string>)
    ensures |r| == |xs|
  {
    if |xs| == 0 then [] else Widths(xs[..|xs| - 1]) + [CommandArgModel.WidthText(xs[|xs| - 1].argType)]
  }

  /** The number of bytes the packer writes for fixed-width arguments. */
  function FixedTotal(xs: seq<CommandArgModel.XmlArg>): nat
  {
    if |xs| == 0 then 0
    else
      var last := xs[|xs| - 1];
      FixedTotal(xs[..|xs| - 1]) + (match CommandArgModel.PackedValue(last.argType)
        case Some(v) => ARPacker.Width(v)
        case None => 0)
  }

  /**
   * Without strings, the size expression is "0" and then, term by term, the decimal number of
   * bytes the packer writes for each argument.
   */
  lemma {:induction false} FixedSizeExpression(xs: seq<CommandArgModel.XmlArg>)
    requires forall i :: 0 <= i < |xs| ==> xs[i].argType != CommandArgModel.String
    ensures SizeExpression(xs) == Joined(["0"] + Widths(xs))
  {
    if |xs| > 0 {
      var init := xs[..|xs| - 1];
      var last := xs[|xs| - 1];
      var t := CommandArgModel.WidthText(last.argType);
      FixedSizeExpression(init);
      CommandArgModel.FixedSize(last);
      assert SizeExpression(xs) == SizeExpression(init) + " + " + t;
      assert ["0"] + Widths(xs) == (["0"] + Widths(init)) + [t];
      JoinedAppend(["0"] + Widths(init), t);
    }
  }

  /** The value of terms joined with " + ", each a decimal number. */
  function SumOf(terms: seq<string>): int
    requires forall i :: 0 <= i < |terms| ==> |terms[i]| > 0 && AllDigits(terms[i])
  {
    if |terms| == 0 then 0 else ParseNat(terms[0]) + SumOf(terms[1..])
  }

  lemma {:induction false} SumOfAppend(terms: seq<string>, t: string)
    requires forall i :: 0 <= i < |terms| ==> |terms[i]| > 0 && AllDigits(terms[i])
    requires |t| > 0 && AllDigits(t)
    ensures SumOf(terms + [t]) == SumOf(terms) + ParseNat(t)
  {
    if |terms| > 0 {
      assert (terms + [t])[1..] == terms[1..] + [t];
      SumOfAppend(terms[1..], t);
    }
  }

  /**
   * Without strings, every term of the size expression is a decimal number and their sum is the
   * number of bytes the packer writes for the arguments.
   */
  lemma {:induction false} FixedSizeTotal(xs: seq<CommandArgModel.XmlArg>)
    requires forall i :: 0 <= i < |xs| ==> xs[i].argType != CommandArgModel.String
    ensures forall i :: 0 <= i < |Widths(xs)| ==> |Widths(xs)[i]| > 0 && AllDigits(Widths(xs)[i])
    ensures SumOf(Widths(xs)) == FixedTotal(xs)
  {
    if |xs| > 0 {
      var init := xs[..|xs| - 1];
      var last := xs[|xs| - 1];
      FixedSizeTotal(init);
      var w := ARPacker.Width(CommandArgModel.PackedValue(last.argType).value);
      assert CommandArgModel.WidthText(last.argType) == NatToString(w);
      NatToStringRoundTrip(w);
      assert Widths(xs) == Widths(init) + [NatToString(w)];
      SumOfAppend(Widths(init), NatToString(w));
      assert FixedTotal(xs) == FixedTotal(init) + w;
    }
  }

  /** The summary is empty when the comment or its description is missing, and always clean. */
  lemma SummaryIsClean(cmd: XmlCommand)
    ensures (cmd.comment.None? || cmd.comment.value.description.None?) ==> SummaryOf(cmd) == ""
    ensures StringHelper.Clean(SummaryOf(cmd))
  {
    if cmd.comment.Some? && cmd.comment.value.description.Some? {
      StringHelper.CleanUpXmlIsClean(cmd.comment.value.description.value);
    }
  }

  predicate Alphanumeric(s: string)
  {
    forall i :: 0 <= i < |s| ==> StringHelper.IsAlphanumeric(s[i])
  }

  /**
   * The class name is "Cmd" and letters and digits only; the namespace is the fixed prefix and two
   * more dot-separated segments, the camel-cased project and class names, which hold no dot.
   */
  lemma NamesAreIdentifiers(project: XmlProject, cls: XmlClass, cmd: XmlCommand)
    ensures Spec(project, cls, cmd).Some? ==> var m := Spec(project, cls, cmd).value;
      && m.className[..3] == "Cmd" && Alphanumeric(m.className[3..])
      && exists a, b :: m.namespace == NamespacePrefix + "." + a + "." + b && Alphanumeric(a) && Alphanumeric(b)
  {
    if Spec(project, cls, cmd).Some? {
      StringHelper.CamelContents(cmd.name);
      StringHelper.CamelContents(project.name);
      StringHelper.CamelContents(cls.name);
      var m := Spec(project, cls, cmd).value;
      assert m.className[3..] == StringHelper.Camel(cmd.name);
      var a, b := StringHelper.Camel(project.name), StringHelper.Camel(cls.name);
      assert m.namespace == NamespacePrefix + "." + a + "." + b;
      assert Alphanumeric(a) && Alphanumeric(b);
    }
  }
}
