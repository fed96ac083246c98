/**
 Which resource an audit record names: a configured one, else the one first authorized for the request,
 else, unless an endpoint owns the request, the literal part of the top-level resource attributes.
 */
module AuditResource {
  import opened Wrappers
  import opened EndpointConfig
  import opened RequestAttributes

  datatype Metadata = Metadata(name: string, namespace_: string, type_: string)

  /** The name and namespace noted for a request; both empty when nothing was authorized by resource. */
  datatype Target = Target(name: string, namespace_: string)

  const NO_TARGET := Target("", "")

  predicate Contains(value: string, pair: string)
    requires |pair| == 2
  {
    exists i :: 0 <= i < |value| - 1 && value[i] == pair[0] && value[i + 1] == pair[1]
  }

  predicate HasDelimiter(template: string) {
    Contains(template, "{{") || Contains(template, "}}")
  }

  function Literal(template: string): string {
    if HasDelimiter(template) then "" else template
  }

  /** The top-level resource attributes as far as they need no request. */
  function StaticMetadata(attributes: Option<ResourceAttributes>): Metadata {
    match attributes
    case None => Metadata("", "", "")
    case Some(a) => Metadata(Literal(a.name), Literal(a.namespace_), "")
  }

  function Captured(attrs: seq<Attributes>): Target {
    if attrs == [] then NO_TARGET
    else if attrs[0].Resource? then Target(attrs[0].name, attrs[0].namespace_)
    else Captured(attrs[1..])
  }

  method CaptureAuthorizationAttributes(attrs: seq<Attributes>) returns (target: Target)
    ensures target == Captured(attrs)
  {
    var i := 0;
    while i < |attrs|
      invariant 0 <= i <= |attrs|
      invariant Captured(attrs) == Captured(attrs[i..])
    {
      if attrs[i].Resource? {
        return Target(attrs[i].name, attrs[i].namespace_);
      }
      i := i + 1;
    }
    target := NO_TARGET;
  }

  /** Configured fields win over captured ones, captured ones over the top-level ones. */
  function Effective(configured: Metadata, target: Target, fallback: Metadata, owned: bool): Metadata {
    var name := if configured.name == "" then target.name else configured.name;
    var namespace_ := if configured.namespace_ == "" then target.namespace_ else configured.namespace_;
    Metadata(if !owned && name == "" then fallback.name else name,
             if !owned && namespace_ == "" then fallback.namespace_ else namespace_,
             configured.type_)
  }

  /** The resource of a record; none without a name. */
  function Recorded(configured: Metadata, target: Target, fallback: Metadata, owned: bool): Option<Metadata> {
    var r := Effective(configured, target, fallback, owned);
    if r.name == "" then None else Some(r)
  }

  /** The target is that of the first attribute by resource. */
  predicate IsFirst(attrs: seq<Attributes>, target: Target) {
    if forall k :: 0 <= k < |attrs| ==> attrs[k].NonResource? then target == Target("", "")
    else exists k :: && 0 <= k < |attrs| && attrs[k].Resource?
                     && (forall j :: 0 <= j < k ==> attrs[j].NonResource?)
                     && target == Target(attrs[k].name, attrs[k].namespace_)
  }

  lemma {:induction false} CapturedIsFirst(attrs: seq<Attributes>)
    ensures IsFirst(attrs, Captured(attrs))
  {
    if attrs != [] && attrs[0].NonResource? {
      var rest := attrs[1..];
      CapturedIsFirst(rest);
      assert forall k :: 0 < k < |attrs| ==> attrs[k] == rest[k - 1];
      if k :| 0 <= k < |rest| && rest[k].Resource? && (forall j :: 0 <= j < k ==> rest[j].NonResource?)
              && Captured(rest) == Target(rest[k].name, rest[k].namespace_)
      {
        assert attrs[k + 1] == rest[k];
      }
    }
  }

  function FirstNonEmpty(candidates: seq<string>): string {
    if candidates == [] then ""
    else if candidates[0] != "" then candidates[0]
    else FirstNonEmpty(candidates[1..])
  }

  /** Name and namespace are each the first one given; the type is only ever configured. */
  lemma Precedence(configured: Metadata, target: Target, fallback: Metadata, owned: bool)
    ensures var r := Effective(configured, target, fallback, owned);
            && r.name == FirstNonEmpty([configured.name, target.name] + (if owned then [] else [fallback.name]))
            && r.namespace_ == FirstNonEmpty([configured.namespace_, target.namespace_]
                                             + (if owned then [] else [fallback.namespace_]))
            && r.type_ == configured.type_
  {
    FirstOfThree(configured.name, target.name, if owned then [] else [fallback.name]);
    FirstOfThree(configured.namespace_, target.namespace_, if owned then [] else [fallback.namespace_]);
  }

  lemma FirstOfThree(x: string, y: string, rest: seq<string>)
    requires |rest| <= 1
    ensures FirstNonEmpty([x, y] + rest)
            == if x != "" then x else if y != "" then y else if rest == [] then "" else rest[0]
  {
    assert ([x, y] + rest)[1..] == [y] + rest;
    assert ([y] + rest)[1..] == rest;
    assert FirstNonEmpty(rest) == if rest == [] then "" else rest[0] by {
      assert rest != [] ==> rest[1..] == [];
    }
  }

  /** A record of an owned request never names the top-level resource. */
  lemma OwnedIgnoresFallback(configured: Metadata, target: Target, fallback: Metadata, fallback': Metadata)
    ensures Recorded(configured, target, fallback, true) == Recorded(configured, target, fallback', true)
  {
  }

  /** Text without "{{" or "}}" stands for itself, any other for nothing. */
  predicate IsLiteralPart(template: string, text: string) {
    if exists i :: 0 <= i < |template| - 1 &&
                   ((template[i] == '{' && template[i + 1] == '{') || (template[i] == '}' && template[i + 1] == '}'))
    then text == "" else text == template
  }

  lemma StaticIsLiteral(attributes: Option<ResourceAttributes>)
    ensures attributes.None? ==> StaticMetadata(attributes) == Metadata("", "", "")
    ensures attributes.Some? ==>
              && IsLiteralPart(attributes.value.name, StaticMetadata(attributes).name)
              && IsLiteralPart(attributes.value.namespace_, StaticMetadata(attributes).namespace_)
  {
  }

  // ----- With nothing configured -----

  function Unconfigured(kind: string): Metadata {
    Metadata("", "", kind)
  }

  /** Text without template delimiters is a template for itself. */
  ghost predicate LiteralsStay(lib: Library) {
    forall t, v :: !HasDelimiter(t) ==> lib.substitute(t, v) == t
  }

  /** The resource one attribute names; none for a request by path or one whose name is empty. */
  function NamedBy(attribute: Attributes, kind: string): Option<Metadata> {
    if attribute.NonResource? || attribute.name == "" then None
    else Some(Metadata(attribute.name, attribute.namespace_, kind))
  }

  /** The fallback never shows beside an attribute that Format1 made: where it has text, so has the attribute,
      and the same. */
  lemma Format1RecordsFirst(lib: Library, user: User, req: Request, cfg: Config, kind: string)
    requires LiteralsStay(lib) && Format1Attributes(lib, user, req, cfg) != []
    ensures var attrs := Format1Attributes(lib, user, req, cfg);
            Recorded(Unconfigured(kind), Captured(attrs), StaticMetadata(cfg.resourceAttributes), false)
            == NamedBy(attrs[0], kind)
  {
    var attrs := Format1Attributes(lib, user, req, cfg);
    if cfg.resourceAttributes.Some? {
      var a := cfg.resourceAttributes.value;
      assert attrs[0].Resource?;
      assert Literal(a.name) == "" || Literal(a.name) == a.name;
      assert Literal(a.namespace_) == "" || Literal(a.namespace_) == a.namespace_;
    } else {
      assert attrs[1..] == [];
    }
  }

  /** Nor does it beside attributes that an endpoint's rules made. */
  lemma OwnedRecordsFirst(attrs: seq<Attributes>, fallback: Metadata, kind: string)
    requires attrs != [] && attrs[0].Resource?
    ensures Recorded(Unconfigured(kind), Captured(attrs), fallback, true) == NamedBy(attrs[0], kind)
  {
  }
}
