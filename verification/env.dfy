/** What the processors receive from outside the modelled code: the HTML
    parser, Python's `repr` for values `str()` does not render exactly, the
    wall clock and the generator of chunk ids. */
module Environment {
  import opened Options
  import opened Json

  datatype Env = Env(
    /** `BeautifulSoup(markup, 'html.parser')` with script and style
        elements removed, then `get_text()`; `None` when the parser raises. */
    markupText: string -> Option<string>,
    /** The same for a truthy value that is not a string: `Some(text)` when
        the parser accepts it, `None` when it raises (the regular-expression
        fallback then raises as well). */
    markupOther: Json -> Option<string>,
    /** `repr` of floats, lists and dicts. */
    repr: Json -> string,
    /** `datetime.now().isoformat()` at processing time. */
    now: string,
    /** The id given to the `k`-th chunk produced by one payload. */
    ids: nat -> string)
}
