/** Normalisation of the SaveInterestingFiles initialisation argument: the
    output directory path, which an XML pipeline configuration may pass
    wrapped in double quotes. */
module Arguments {

  const Quote: char := '"'

  /** Erases the first character when it is a quote. Only reached with a
      non-empty argument: the empty one is rejected first. */
  function DropLeadingQuote(s: string): string
    requires s != []
  {
    if s[0] == Quote then s[1..] else s
  }

  /** Erases the last character when it is a quote. Reading index
      `size() - 1` is only defined on a non-empty string. */
  function DropTrailingQuote(s: string): string
    requires s != []
  {
    if s[|s| - 1] == Quote then s[..|s| - 1] else s
  }

  /** Both erase steps read a character that exists. */
  predicate LastIndexDefined(args: string)
  {
    args != [] && DropLeadingQuote(args) != []
  }

  /** The only arguments for which the trailing-quote test is undefined are
      the empty one (rejected before stripping) and a lone quote. */
  lemma LastIndexDefinedExactly(args: string)
    ensures LastIndexDefined(args) <==> args != [] && args != [Quote]
  {
  }

  /** The stored output directory: at most one leading and at most one
      trailing quote removed, every other character kept in place. */
  function StripQuotes(args: string): (r: string)
    requires LastIndexDefined(args)
    ensures var lead := if args[0] == Quote then 1 else 0;
            var trail := if args[|args| - 1] == Quote then 1 else 0;
            lead + trail <= |args| && r == args[lead..|args| - trail]
    ensures |args| - 2 <= |r| <= |args|
    ensures args[0] != Quote && args[|args| - 1] != Quote ==> r == args
  {
    DropTrailingQuote(DropLeadingQuote(args))
  }

  /** How the XML configuration wraps a path. */
  function Quoted(path: string): string
  {
    [Quote] + path + [Quote]
  }

  /** Stripping undoes the configuration's quoting, for every path, even
      one that itself starts or ends with a quote. */
  lemma StripQuotesOfQuoted(path: string)
    ensures LastIndexDefined(Quoted(path))
    ensures StripQuotes(Quoted(path)) == path
  {
  }

  /** A doubly quoted argument keeps its inner pair: stripping is not
      repeated until no quote is left. This is `StripQuotesOfQuoted` applied
      to an already quoted path. */
  lemma StripQuotesRemovesOnePair(path: string)
    ensures StripQuotes(Quoted(Quoted(path))) == Quoted(path)
  {
    StripQuotesOfQuoted(Quoted(path));
  }
}
