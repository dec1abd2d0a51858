/** The error taxonomy of the library and the message of the aggregate
    error raised by a collect-all batch resolution (cfig/errors.py). */
module Errors {
  import opened Wrappers

  // ---------------------------------------------------------------------
  // The class hierarchy
  // ---------------------------------------------------------------------

  /** The exception classes of the library, together with the Python
      built-ins they derive from. `Foreign(name)` is any other exception
      class deriving from `Exception` that a resolver may raise. */
  datatype ExceptionClass =
    | BaseException
    | Exception
    | CfigError
    | DeveloperError
    | DefinitionError
    | UnknownResolverNameError
    | ProxyRegistrationError
    | DuplicateProxyNameError
    | UserError
    | ConfigurationError
    | MissingValueError
    | InvalidValueError
    | BatchResolutionFailureError
    | Foreign(name: string)

  /** Distance of a class from `BaseException`, the root of the hierarchy. */
  function Depth(c: ExceptionClass): (d: nat)
  {
    match c
    case BaseException => 0
    case Exception => 1
    case BatchResolutionFailureError => 1
    case CfigError => 2
    case Foreign(_) => 2
    case DeveloperError => 3
    case UserError => 3
    case DefinitionError => 4
    case ConfigurationError => 4
    case UnknownResolverNameError => 5
    case ProxyRegistrationError => 5
    case MissingValueError => 5
    case InvalidValueError => 5
    case DuplicateProxyNameError => 6
  }

  /** The single base class each class declares. */
  function Parent(c: ExceptionClass): (p: Option<ExceptionClass>)
    ensures p.None? <==> c == BaseException
    ensures p.Some? ==> Depth(p.value) + 1 == Depth(c)
  {
    match c
    case BaseException => None
    case Exception => Some(BaseException)
    case BatchResolutionFailureError => Some(BaseException)
    case CfigError => Some(Exception)
    case Foreign(_) => Some(Exception)
    case DeveloperError => Some(CfigError)
    case UserError => Some(CfigError)
    case DefinitionError => Some(DeveloperError)
    case ConfigurationError => Some(UserError)
    case UnknownResolverNameError => Some(DefinitionError)
    case ProxyRegistrationError => Some(DefinitionError)
    case MissingValueError => Some(ConfigurationError)
    case InvalidValueError => Some(ConfigurationError)
    case DuplicateProxyNameError => Some(ProxyRegistrationError)
  }

  /** The method resolution order: the class, then its ancestors up to
      `BaseException`. */
  function Mro(c: ExceptionClass): (r: seq<ExceptionClass>)
    decreases Depth(c)
    ensures |r| == Depth(c) + 1
    ensures r[0] == c && r[|r| - 1] == BaseException
  {
    match Parent(c)
    case None => [c]
    case Some(p) => [c] + Mro(p)
  }

  /** Python's `issubclass(c, d)`. */
  predicate IsSubclass(c: ExceptionClass, d: ExceptionClass)
  {
    d in Mro(c)
  }

  // ---------------------------------------------------------------------
  // Error values
  // ---------------------------------------------------------------------

  /** An exception instance as the library raises or captures it. */
  datatype Error =
    | UnknownResolverName
    | DuplicateKey(key: string)
    | MissingValue(key: string)
    | InvalidValue(reason: string)
    | Unexpected(className: string, text: string)

  function ClassOf(e: Error): (c: ExceptionClass)
  {
    match e
    case UnknownResolverName => UnknownResolverNameError
    case DuplicateKey(_) => DuplicateProxyNameError
    case MissingValue(_) => MissingValueError
    case InvalidValue(_) => InvalidValueError
    case Unexpected(name, _) => Foreign(name)
  }

  /** `__qualname__` of a class. */
  function QualName(c: ExceptionClass): (name: string)
  {
    match c
    case BaseException => "BaseException"
    case Exception => "Exception"
    case CfigError => "CfigError"
    case DeveloperError => "DeveloperError"
    case DefinitionError => "DefinitionError"
    case UnknownResolverNameError => "UnknownResolverNameError"
    case ProxyRegistrationError => "ProxyRegistrationError"
    case DuplicateProxyNameError => "DuplicateProxyNameError"
    case UserError => "UserError"
    case ConfigurationError => "ConfigurationError"
    case MissingValueError => "MissingValueError"
    case InvalidValueError => "InvalidValueError"
    case BatchResolutionFailureError => "BatchResolutionFailure"
    case Foreign(name) => name
  }

  /** `str(e)`: the single argument the exception was raised with. */
  function Text(e: Error): (t: string)
  {
    match e
    case UnknownResolverName => ""
    case DuplicateKey(key) => key
    case MissingValue(key) => key
    case InvalidValue(reason) => reason
    case Unexpected(_, text) => text
  }

  /** The ancestry of `Exception`, of the library's base class, of the
      aggregate failure and of foreign classes, written out. */
  lemma MroRoots()
    ensures Mro(Exception) == [Exception, BaseException]
    ensures Mro(CfigError) == [CfigError, Exception, BaseException]
    ensures Mro(BatchResolutionFailureError) == [BatchResolutionFailureError, BaseException]
    ensures forall n :: Mro(Foreign(n)) == [Foreign(n), Exception, BaseException]
  {
    assert Mro(Exception) == [Exception, BaseException];
    assert Mro(CfigError) == [CfigError] + Mro(Exception);
    forall n ensures Mro(Foreign(n)) == [Foreign(n), Exception, BaseException] {
      assert Mro(Foreign(n)) == [Foreign(n)] + Mro(Exception);
    }
  }

  /** The ancestry of the inner classes of the library, written out. */
  lemma MroTable()
    ensures Mro(DeveloperError) == [DeveloperError, CfigError, Exception, BaseException]
    ensures Mro(UserError) == [UserError, CfigError, Exception, BaseException]
    ensures Mro(DefinitionError) == [DefinitionError, DeveloperError, CfigError, Exception, BaseException]
    ensures Mro(ConfigurationError) == [ConfigurationError, UserError, CfigError, Exception, BaseException]
    ensures Mro(ProxyRegistrationError)
            == [ProxyRegistrationError, DefinitionError, DeveloperError, CfigError, Exception, BaseException]
  {
    MroRoots();
    assert Mro(DeveloperError) == [DeveloperError] + Mro(CfigError);
    assert Mro(UserError) == [UserError] + Mro(CfigError);
    assert Mro(DefinitionError) == [DefinitionError] + Mro(DeveloperError);
    assert Mro(ConfigurationError) == [ConfigurationError] + Mro(UserError);
    assert Mro(ProxyRegistrationError) == [ProxyRegistrationError] + Mro(DefinitionError);
  }

  /** The ancestry of the classes the library raises, written out. */
  lemma MroLeaves()
    ensures Mro(UnknownResolverNameError)
            == [UnknownResolverNameError, DefinitionError, DeveloperError, CfigError, Exception, BaseException]
    ensures Mro(DuplicateProxyNameError)
            == [DuplicateProxyNameError, ProxyRegistrationError, DefinitionError, DeveloperError, CfigError, Exception, BaseException]
    ensures Mro(MissingValueError)
            == [MissingValueError, ConfigurationError, UserError, CfigError, Exception, BaseException]
    ensures Mro(InvalidValueError)
            == [InvalidValueError, ConfigurationError, UserError, CfigError, Exception, BaseException]
  {
    MroTable();
    assert Mro(UnknownResolverNameError) == [UnknownResolverNameError] + Mro(DefinitionError);
    assert Mro(DuplicateProxyNameError) == [DuplicateProxyNameError] + Mro(ProxyRegistrationError);
    assert Mro(MissingValueError) == [MissingValueError] + Mro(ConfigurationError);
    assert Mro(InvalidValueError) == [InvalidValueError] + Mro(ConfigurationError);
  }

  /** Missing and invalid values are configuration errors, hence user errors. */
  lemma ResolutionErrorsAreUserErrors(e: Error)
    requires e.MissingValue? || e.InvalidValue?
    ensures Mro(ClassOf(e))[1..] == [ConfigurationError, UserError, CfigError, Exception, BaseException]
    ensures IsSubclass(ClassOf(e), UserError) && !IsSubclass(ClassOf(e), DeveloperError)
  {
    MroTable();
    var c := ClassOf(e);
    assert Mro(c) == [c] + Mro(ConfigurationError);
  }

  /** Failing to name a resolver and registering a key twice are definition
      errors, hence developer errors. */
  lemma DefinitionErrorsAreDeveloperErrors(key: string)
    ensures Mro(ClassOf(UnknownResolverName))[1..]
            == [DefinitionError, DeveloperError, CfigError, Exception, BaseException]
    ensures Mro(ClassOf(DuplicateKey(key)))[1..]
            == [ProxyRegistrationError, DefinitionError, DeveloperError, CfigError, Exception, BaseException]
    ensures !IsSubclass(ClassOf(DuplicateKey(key)), UserError)
    ensures !IsSubclass(ClassOf(UnknownResolverName), UserError)
  {
    MroTable();
    assert Mro(UnknownResolverNameError) == [UnknownResolverNameError] + Mro(DefinitionError);
    assert Mro(DuplicateProxyNameError) == [DuplicateProxyNameError] + Mro(ProxyRegistrationError);
  }

  /** The hierarchy splits below `BaseException`: the aggregate failure is
      an ancestor of itself only, and every other class except the root
      derives from `Exception`. */
  lemma {:induction false} HierarchySplit(c: ExceptionClass)
    decreases Depth(c)
    ensures IsSubclass(c, BatchResolutionFailureError) <==> c == BatchResolutionFailureError
    ensures IsSubclass(c, Exception) <==> c != BaseException && c != BatchResolutionFailureError
  {
    match Parent(c)
    case None =>
    case Some(p) =>
      HierarchySplit(p);
      assert Mro(c) == [c] + Mro(p);
  }

  /** Every error a resolution can raise is an `Exception`, and none of
      them is the aggregate failure. */
  lemma ResolutionErrorsAreExceptions(e: Error)
    ensures IsSubclass(ClassOf(e), Exception)
    ensures !IsSubclass(ClassOf(e), BatchResolutionFailureError)
  {
    HierarchySplit(ClassOf(e));
  }

  /** The aggregate failure derives from `BaseException` directly, so a
      handler for `Exception` or `CfigError` does not catch it. */
  lemma BatchFailureIsNotAnException()
    ensures !IsSubclass(BatchResolutionFailureError, Exception)
    ensures !IsSubclass(BatchResolutionFailureError, CfigError)
  {
    MroRoots();
  }

  // ---------------------------------------------------------------------
  // Text helpers: decimal numbers, padding, joining lines
  // ---------------------------------------------------------------------

  predicate IsDigits(s: string)
  {
    forall i :: 0 <= i < |s| ==> '0' <= s[i] <= '9'
  }

  function DigitChar(d: nat): (c: char)
    requires d < 10
    ensures '0' <= c <= '9' && c as int - '0' as int == d
  {
    (d + '0' as int) as char
  }

  /** Python's `str(n)` for a non-negative integer. */
  function NatToString(n: nat): (s: string)
    decreases n
    ensures |s| > 0 && IsDigits(s)
    ensures s[0] == '0' ==> n == 0
  {
    if n < 10 then [DigitChar(n)] else NatToString(n / 10) + [DigitChar(n % 10)]
  }

  /** The number a string of decimal digits denotes. */
  function DecimalValue(s: string): (v: nat)
    requires IsDigits(s)
  {
    if s == [] then 0
    else DecimalValue(s[..|s| - 1]) * 10 + (s[|s| - 1] as int - '0' as int)
  }

  lemma {:induction false} DecimalRoundTrip(n: nat)
    decreases n
    ensures DecimalValue(NatToString(n)) == n
  {
    if n >= 10 {
      var s := NatToString(n);
      assert s[..|s| - 1] == NatToString(n / 10);
      DecimalRoundTrip(n / 10);
    }
  }

  /** `"{key:width}".format(key=s)`: left-aligned, space-padded to `width`. */
  function PadRight(s: string, width: nat): (r: string)
    ensures |r| == if |s| < width then width else |s|
    ensures r[..|s|] == s
    ensures forall i :: |s| <= i < |r| ==> r[i] == ' '
  {
    if |s| >= width then s else s + seq(width - |s|, _ => ' ')
  }

  /** `sep.join(lines)`. */
  function Join(lines: seq<string>, sep: string): (s: string)
  {
    if |lines| == 0 then ""
    else if |lines| == 1 then lines[0]
    else lines[0] + sep + Join(lines[1..], sep)
  }

  /** `s.split(sep)` for a one-character separator. */
  function Split(s: string, sep: char): (parts: seq<string>)
    ensures |parts| > 0
  {
    if s == [] then [""]
    else
      var rest := Split(s[1..], sep);
      if s[0] == sep then [""] + rest else [[s[0]] + rest[0]] + rest[1..]
  }

  lemma {:induction false} SplitNoSeparator(s: string, sep: char)
    requires sep !in s
    ensures Split(s, sep) == [s]
  {
    if s != [] {
      SplitNoSeparator(s[1..], sep);
      assert [s[0]] + s[1..] == s;
    }
  }

  lemma {:induction false} SplitAtSeparator(a: string, b: string, sep: char)
    requires sep !in a
    ensures Split(a + [sep] + b, sep) == [a] + Split(b, sep)
  {
    if a == [] {
      assert (a + [sep] + b)[1..] == b;
    } else {
      assert (a + [sep] + b)[1..] == a[1..] + [sep] + b;
      SplitAtSeparator(a[1..], b, sep);
      assert [a[0]] + a[1..] == a;
    }
  }

  /** Joining lines that hold no separator and splitting again gives the
      lines back: a message is exactly its list of lines. */
  lemma {:induction false} SplitJoin(lines: seq<string>, sep: char)
    requires |lines| > 0
    requires forall i :: 0 <= i < |lines| ==> sep !in lines[i]
    ensures Split(Join(lines, [sep]), sep) == lines
  {
    if |lines| == 1 {
      SplitNoSeparator(lines[0], sep);
    } else {
      SplitJoin(lines[1..], sep);
      SplitAtSeparator(lines[0], Join(lines[1..], [sep]), sep);
      assert [lines[0]] + lines[1..] == lines;
    }
  }

  // ---------------------------------------------------------------------
  // BatchResolutionFailure
  // ---------------------------------------------------------------------

  /** The error dictionary of a batch failure: key and error, in insertion order. */
  type Entries = seq<(string, Error)>

  /** A dictionary holds each key once. */
  predicate DistinctEntryKeys(errors: Entries)
  {
    forall i, j :: 0 <= i < j < |errors| ==> errors[i].0 != errors[j].0
  }

  /** The text after the count on the first line, " errors occurred during
      the resolution of the config:", written word by word. */
  const HeaderTail: string :=
    " errors" + " occurred" + " during" + " the" + " resolution" + " of" + " the" + " config:"

  /** The first line of the message: the count, which reads back as `n`,
      then the fixed text. */
  function Header(n: nat): (h: string)
    ensures |h| == |NatToString(n)| + |HeaderTail|
    ensures IsDigits(h[..|NatToString(n)|]) && DecimalValue(h[..|NatToString(n)|]) == n
    ensures h[|NatToString(n)|..] == HeaderTail
  {
    DecimalRoundTrip(n);
    var h := NatToString(n) + HeaderTail;
    assert h[..|NatToString(n)|] == NatToString(n);
    h
  }

  /** One line per entry: the marker, the padded key, the arrow, the
      class name and the text of the error. */
  function EntryLine(key: string, e: Error, width: nat): (line: string)
    ensures |line| == 2 + (if |key| < width then width else |key|) + 3 + |QualName(ClassOf(e))| + 2 + |Text(e)|
    ensures line[..2] == "* "
  {
    "* " + PadRight(key, width) + " → " + QualName(ClassOf(e)) + ": " + Text(e)
  }

  /** `max(len(k) for k in errors)`. */
  function MaxKeyLength(errors: Entries): (m: nat)
    requires |errors| > 0
    ensures forall i :: 0 <= i < |errors| ==> |errors[i].0| <= m
    ensures exists i :: 0 <= i < |errors| && |errors[i].0| == m
  {
    if |errors| == 1 then |errors[0].0|
    else
      var m := MaxKeyLength(errors[..|errors| - 1]);
      var last := |errors[|errors| - 1].0|;
      if last > m then last else m
  }

  /** The lines after the header, one per entry, keys padded to `width`. */
  function EntryLines(errors: Entries, width: nat): (lines: seq<string>)
    ensures |lines| == |errors|
    ensures forall i :: 0 <= i < |errors| ==> lines[i] == EntryLine(errors[i].0, errors[i].1, width)
  {
    if errors == [] then []
    else EntryLines(errors[..|errors| - 1], width) + [EntryLine(errors[|errors| - 1].0, errors[|errors| - 1].1, width)]
  }

  /** The lines of the aggregate message, before they are joined: the
      header counting the entries, then one line per entry in order, every
      key padded to the length of the longest key (so, by EntryLineLayout,
      every arrow stands in the same column). */
  function MessageLines(errors: Entries): (lines: seq<string>)
    requires |errors| > 0
    ensures |lines| == |errors| + 1
    ensures lines[0] == Header(|errors|)
    ensures forall i :: 0 <= i < |errors| ==> lines[i + 1] == EntryLine(errors[i].0, errors[i].1, MaxKeyLength(errors))
  {
    [Header(|errors|)] + EntryLines(errors, MaxKeyLength(errors))
  }

  /** One entry line: the key left-aligned in a column `width` wide, then
      the arrow, then the class name and the text of the error. */
  lemma EntryLineLayout(key: string, e: Error, width: nat)
    requires |key| <= width
    ensures var line := EntryLine(key, e, width);
      && |line| >= width + 5
      && line[..2] == "* "
      && line[2..2 + |key|] == key
      && (forall j :: 2 + |key| <= j < 2 + width ==> line[j] == ' ')
      && line[2 + width..width + 5] == " → "
      && line[width + 5..] == QualName(ClassOf(e)) + ": " + Text(e)
  {
    var padded := PadRight(key, width);
    var tail := QualName(ClassOf(e)) + ": " + Text(e);
    var line := EntryLine(key, e, width);
    assert line == "* " + padded + " → " + tail;
    assert line[2..2 + width] == padded;
  }

  /** No line of the message breaks, as long as no key, class name or error
      text holds a newline; then the message splits back into exactly its
      lines. */
  lemma MessageSplitsIntoLines(errors: Entries)
    requires |errors| > 0
    requires forall i :: 0 <= i < |errors| ==>
               '\n' !in errors[i].0 && '\n' !in QualName(ClassOf(errors[i].1)) && '\n' !in Text(errors[i].1)
    ensures Split(Join(MessageLines(errors), "\n"), '\n') == MessageLines(errors)
  {
    var lines := MessageLines(errors);
    forall j | 0 <= j < |lines|
      ensures '\n' !in lines[j]
    {
      if j == 0 {
        HeaderHasNoNewline(|errors|);
      } else {
        EntryLineHasNoNewline(errors[j - 1].0, errors[j - 1].1, MaxKeyLength(errors));
      }
    }
    SplitJoin(lines, '\n');
  }

  lemma HeaderHasNoNewline(n: nat)
    ensures '\n' !in Header(n)
  {
    var digits := NatToString(n);
    assert forall k :: 0 <= k < |digits| ==> digits[k] != '\n';
    assert '\n' !in HeaderTail;
    assert Header(n) == digits + HeaderTail;
  }

  lemma EntryLineHasNoNewline(key: string, e: Error, width: nat)
    requires '\n' !in key && '\n' !in QualName(ClassOf(e)) && '\n' !in Text(e)
    ensures '\n' !in EntryLine(key, e, width)
  {
    var padded := PadRight(key, width);
    assert forall k :: 0 <= k < |padded| ==> padded[k] == ' ' || padded[k] in key;
  }

  lemma EntryLinesStep(errors: Entries, i: nat, width: nat)
    requires i < |errors|
    ensures EntryLines(errors[..i + 1], width) == EntryLines(errors[..i], width) + [EntryLine(errors[i].0, errors[i].1, width)]
  {
    assert errors[..i + 1][..i] == errors[..i];
  }

  /** Builds the message line by line, as the constructor does. */
  method FormatMessage(errors: Entries) returns (message: string)
    requires |errors| > 0
    ensures message == Join(MessageLines(errors), "\n")
  {
    var keyPadding := MaxKeyLength(errors);
    var entries: seq<string> := [];
    for i := 0 to |errors|
      invariant entries == EntryLines(errors[..i], keyPadding)
    {
      EntryLinesStep(errors, i, keyPadding);
      entries := entries + [EntryLine(errors[i].0, errors[i].1, keyPadding)];
    }
    assert errors[..|errors|] == errors;
    var lines := [Header(|errors|)] + entries;
    message := Join(lines, "\n");
  }

  /** The aggregate error of a collect-all resolution. */
  class BatchResolutionFailure {
    const errors: Entries
    const message: string

    constructor (errors: Entries)
      requires |errors| > 0
      requires DistinctEntryKeys(errors)
      ensures this.errors == errors
      ensures message == Join(MessageLines(errors), "\n")
    {
      var text := FormatMessage(errors);
      this.errors := errors;
      message := text;
    }

    /** `repr(self)`. */
    function ReprText(): (r: string)
    {
      "<BatchResolutionFailure: " + NatToString(|errors|) + " errors>"
    }

    /** The count shown by `repr` is the number of entries. */
    lemma ReprCountsErrors()
      ensures var r, n := ReprText(), NatToString(|errors|);
        && r[..25] == "<BatchResolutionFailure: "
        && r[|r| - 8..] == " errors>"
        && DecimalValue(r[25..|r| - 8]) == |errors|
    {
      var r, n := ReprText(), NatToString(|errors|);
      assert r[25..|r| - 8] == n;
      DecimalRoundTrip(|errors|);
    }
  }
}
