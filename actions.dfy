/** RxAction: an optional envelope for actions, a type tag with an
    optional payload. Java's `null` payload is `None`. The tag is called
    `kind` because `type` is a Dafny keyword. */
module Actions {

  datatype Option<T> = None | Some(value: T)

  /** Both fields are fixed when the value is built and can never change,
      as the `final` fields of the Java class. */
  datatype RxAction<T, P> = RxAction(kind: T, payload: Option<P>)

  /** `new RxAction(type)`: delegates to the two-argument constructor
      with a null payload. */
  function Of<T, P>(kind: T): (a: RxAction<T, P>)
    ensures a.kind == kind && a.payload == None
  {
    WithPayload(kind, None)
  }

  /** `new RxAction(type, payload)`: stores both arguments as given,
      `null` included. */
  function WithPayload<T, P>(kind: T, payload: Option<P>): (a: RxAction<T, P>)
    ensures a.kind == kind && a.payload == payload
  {
    RxAction(kind, payload)
  }

  /** The separator `toString` puts between the type and the payload. */
  const Separator: string := ": "

  /** `toString`: the type's text alone when there is no payload,
      otherwise the type's text, ": " and the payload's text. The two
      `toString` methods of the type and payload objects are parameters. */
  function Describe<T, P>(a: RxAction<T, P>, typeText: T -> string, payloadText: P -> string): (s: string)
  {
    match a.payload
    case None => typeText(a.kind)
    case Some(p) => typeText(a.kind) + Separator + payloadText(p)
  }

  /** Reads back the payload's text from a description, given the text of
      the type it starts with: the inverse of `Describe`. */
  function PayloadTextOf(s: string, typeText: string): Option<string>
  {
    if |s| < |typeText| + |Separator| then None else Some(s[|typeText| + |Separator|..])
  }

  /** A description starts with the type's text; it is exactly that text
      when the payload is null, and two characters and the payload's text
      longer otherwise. */
  lemma DescribeShape<T, P>(a: RxAction<T, P>, typeText: T -> string, payloadText: P -> string)
    ensures var s := Describe(a, typeText, payloadText);
            && |typeText(a.kind)| <= |s|
            && s[..|typeText(a.kind)|] == typeText(a.kind)
            && (a.payload == None <==> s == typeText(a.kind))
            && (a.payload.Some? ==>
                  && s[|typeText(a.kind)|..] == Separator + payloadText(a.payload.value)
                  && |s| == |typeText(a.kind)| + 2 + |payloadText(a.payload.value)|)
  {
  }

  /** The payload's text, empty or not, can be recovered from the
      description; a null payload reads back as none. */
  lemma DescribeRoundTrip<T, P>(a: RxAction<T, P>, typeText: T -> string, payloadText: P -> string)
    ensures PayloadTextOf(Describe(a, typeText, payloadText), typeText(a.kind))
            == match a.payload
               case None => None
               case Some(p) => Some(payloadText(p))
  {
  }

  /** Two actions of the same type are told apart by their descriptions
      as long as distinct payloads have distinct texts. */
  lemma DescribeInjective<T, P>(a: RxAction<T, P>, b: RxAction<T, P>, typeText: T -> string, payloadText: P -> string)
    requires a.kind == b.kind
    requires forall p, q :: payloadText(p) == payloadText(q) ==> p == q
    requires Describe(a, typeText, payloadText) == Describe(b, typeText, payloadText)
    ensures a == b
  {
    DescribeRoundTrip(a, typeText, payloadText);
    DescribeRoundTrip(b, typeText, payloadText);
  }
}
