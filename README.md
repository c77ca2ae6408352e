# Papertrail logger configuration, modelled in Dafny

This project models `noble_logging_utils/papertrail_logger.py`, which sets up
a Python logger for the Papertrail log service. It covers three parts.

- **The context filter** (`PapertrailContextFilter`). It removes every space
  from a host name and a job name. It then stamps both on each record it sees
  and never drops a record.
- **Destination resolution** (`_get_logging_destination`). The host and port
  come from the `PAPERTRAIL_HOST` and `PAPERTRAIL_PORT` environment variables.
  When either variable is missing, both come from an optional
  `logging_secrets` module instead.
  - A missing module or a missing attribute raises `MissingCredentials`.
  - A port that `int()` rejects escapes as an uncaught `ValueError`, or as a
    `TypeError` for `None`.
- **`get_logger`**. It sets the shared logger to DEBUG and attaches the
  filter. It then resolves the destination and creates the syslog handler,
  which opens its socket on creation and can fail there. Last it attaches two
  handlers: the syslog handler with the Papertrail formatter, then a
  standard-output handler at DEBUG with no formatter.

Modules:

- `Strings` (strings.dfy): deleting one character (`str.replace(c, "")`),
  `str.split(sep)` and its inverse `Join`.
- `PyInt` (pyint.dfy): Python's `int()` on a string. It strips the
  surrounding whitespace that `int()` strips. That is the six ASCII whitespace
  characters and non-ASCII Unicode whitespace, but not the separators U+001C
  to U+001F that `str.isspace` also accepts. It then accepts an optional sign
  and decimal digits, with single `_` separators allowed between digits.
- `Destination` (destination.dfy): the resolution rule, as a pure function.
  The environment is a `map<string, string>`. The `logging_secrets` module is
  an `Option` of its attribute map, and `None` means it cannot be imported.
- `Papertrail` (papertrail.dfy): the constants, `RemoveSpaces`, the line
  layout, and the record, filter, handler and logger classes. It also holds
  `GetLogger`, which changes the logger in the same order as the source.

The comment at papertrail_logger.py:28 speaks of whitespace, but the code
removes only U+0020. Tabs and newlines therefore survive, and an all-space
name becomes `""` (`Papertrail.RemoveSpacesEmpty`). The model follows the code.

## Model

| member | source | states |
|---|---|---|
| `Papertrail.RemoveSpaces` | noble_logging_utils/papertrail_logger.py:29-30 | the sanitised name contains no space and is no longer than the input |
| `Strings.WithoutKeepsOthersInOrder` | noble_logging_utils/papertrail_logger.py:29-30 | the removal keeps exactly the non-space characters, at strictly increasing positions and in their original order; every removed position held a space |
| `Strings.WithoutAppend` | noble_logging_utils/papertrail_logger.py:29-30 | removing a character distributes over concatenation |
| `Papertrail.RemoveSpacesIdempotent` | noble_logging_utils/papertrail_logger.py:29-30 | sanitising twice is sanitising once; a name is unchanged exactly when it holds no space |
| `Papertrail.RemoveSpacesEmpty` | noble_logging_utils/papertrail_logger.py:29-30 | the sanitised name is empty exactly when the input is all spaces, so non-emptiness is not guaranteed |
| `Papertrail.RemoveSpacesInterior` | noble_logging_utils/papertrail_logger.py:29-30 | `"my job"` becomes `"myjob"` |
| `Papertrail.RemoveSpacesKeepsTab` | noble_logging_utils/papertrail_logger.py:29-30 | a tab is not removed; only U+0020 is |
| `Papertrail.ContextFilter.constructor` | noble_logging_utils/papertrail_logger.py:27-31 | the filter stores the sanitised host name and job name, both free of spaces |
| `Papertrail.ContextFilter.Filter` | noble_logging_utils/papertrail_logger.py:33-36 | always keeps the record; sets `hostname` and `jobname` to the stored names, overwriting earlier values, and leaves every other attribute unchanged |
| `Papertrail.RenderFields` | noble_logging_utils/papertrail_logger.py:13 | splitting a rendered line on spaces gives the timestamp's fields, then `host`, `job:` and `[LEVEL]` as single fields, then the message's fields, when host, job and level hold no space |
| `Papertrail.SanitisedNamesAreSingleFields` | noble_logging_utils/papertrail_logger.py:28-30 | with sanitised names, the host name and the job name are each exactly one field of the split line, right after the timestamp's fields |
| `Papertrail.Render` | noble_logging_utils/papertrail_logger.py:13 | a rendered line starts with the timestamp, ends with the message, and is seven characters longer than its five parts |
| `Papertrail.RenderExample` | noble_logging_utils/papertrail_logger.py:13-14 | an example record renders as `Jan 05 14:03:22 salesforce-local testjob: [INFO] hello` |
| `Strings.JoinSplit` | noble_logging_utils/papertrail_logger.py:28 | the space-split fields of a line join back to the line, so splitting loses nothing |
| `Destination.Resolve` | noble_logging_utils/papertrail_logger.py:73-93 | `MissingCredentials` exactly when the environment is incomplete and the module is missing or lacks an attribute; a resolved pair comes wholly from the environment, or wholly from the module when the environment is incomplete; a complete environment with a parseable port resolves to it; an incomplete environment with a complete module whose port converts resolves to the module's host and converted port; a `TypeError` only comes from the module |
| `Destination.IntOfDecimalText` | noble_logging_utils/papertrail_logger.py:89 | `int(v)` on a module attribute: a port given as an integer and a port given as its decimal text convert to the same integer |
| `Destination.EnvironmentWins` | noble_logging_utils/papertrail_logger.py:82-84 | both variables set and a parseable port give `(env host, parsed port)` whatever the module holds; the port is not range-checked |
| `Destination.MalformedEnvironmentPort` | noble_logging_utils/papertrail_logger.py:82-85 | both variables set and an unparseable port give a parse error carrying that text, not `MissingCredentials`; the module makes no difference |
| `Destination.PortIgnoredWithoutHost` | noble_logging_utils/papertrail_logger.py:83-84 | without the host variable, the port variable's value, malformed or not, has no effect |
| `Destination.IncompleteEnvironmentUsesSecrets` | noble_logging_utils/papertrail_logger.py:83-88 | with either variable missing the result is the same as with an empty environment, so there is no mixing |
| `Destination.SecretsLookupFailures` | noble_logging_utils/papertrail_logger.py:86-91 | an unimportable module, a missing host attribute, or a missing port attribute each give `MissingCredentials` with that cause |
| `Destination.MalformedSecretsPort` | noble_logging_utils/papertrail_logger.py:89-91 | an unparseable string port in the module is a parse error and a `None` port a type error, neither of them `MissingCredentials` |
| `Destination.ResolveExamples` | noble_logging_utils/papertrail_logger.py:73-93 | example scenarios: `("logs.example.com", 1234)` from the environment; `MissingCredentials` with no sources or with only the host set; a parse error for `"notanumber"` |
| `Destination.ResolveFromSecretsExamples` | noble_logging_utils/papertrail_logger.py:86-93 | with no environment, a module port `1234` gives `("logs.example.com", 1234)`; with only the host variable set, a module port `"1234"` gives the module's pair and ignores the environment host |
| `PyInt.ParseInt` | noble_logging_utils/papertrail_logger.py:84 | `int()` on a string: a text without any decimal digit is a `ValueError`; a negative result needs a leading `-` after stripping |
| `PyInt.ParseIntAcceptsExactly` | noble_logging_utils/papertrail_logger.py:84 | `int()` succeeds exactly when the stripped text is an optional sign followed by digits with single underscores between them (starting and ending with a digit); everything else, e.g. `"80ab"` or `"1__0"`, is a `ValueError` |
| `PyInt.ValidDigitsCharacterised` | noble_logging_utils/papertrail_logger.py:84 | the recursive digit-group grammar is the same as the character-level rule: digits and single underscores, starting and ending with a digit |
| `PyInt.ParsePlusShow` | noble_logging_utils/papertrail_logger.py:84 | `int("+" + str(n)) == n` for every `n >= 0` |
| `PyInt.ParseMixedExample` | noble_logging_utils/papertrail_logger.py:84 | `int("80ab")` is a `ValueError` |
| `PyInt.ParseShow` | noble_logging_utils/papertrail_logger.py:84 | `int(str(n)) == n` for every integer, negative ones included |
| `PyInt.ParseIntIgnoresSurroundingSpace` | noble_logging_utils/papertrail_logger.py:84 | `int()` gives the same outcome when whitespace that `int()` strips is added around its argument |
| `PyInt.ParseSeparatorExample` | noble_logging_utils/papertrail_logger.py:84 | `int("\x1c1234")` is a `ValueError`: U+001C is not stripped |
| `PyInt.ParsePortExample` | noble_logging_utils/papertrail_logger.py:84 | `int("1234") == 1234` |
| `PyInt.ParseWordExample` | noble_logging_utils/papertrail_logger.py:84 | `int("notanumber")` raises `ValueError` |
| `Papertrail.LogRecord.constructor` | noble_logging_utils/papertrail_logger.py:33-36 | a record holds exactly the attributes it is given, which `ContextFilter.Filter` then updates |
| `Papertrail.Handler.constructor` | noble_logging_utils/papertrail_logger.py:58 | a new handler has its sink, level NOTSET and no formatter |
| `Papertrail.Logger.constructor` | noble_logging_utils/papertrail_logger.py:53 | a new logger has level NOTSET, no filters and no handlers |
| `Papertrail.UncheckedPortExample` | noble_logging_utils/papertrail_logger.py:58 | a resolved port of 70000 does not by itself prevent the syslog handler from being created |
| `Papertrail.Logger.SetLevel` | noble_logging_utils/papertrail_logger.py:54 | sets the level; filters and handlers are unchanged |
| `Papertrail.Logger.AddFilter` | noble_logging_utils/papertrail_logger.py:56 | appends the filter unless that same object is already attached; nothing else changes |
| `Papertrail.Logger.AddHandler` | noble_logging_utils/papertrail_logger.py:63 | appends the handler unless that same object is already attached; nothing else changes |
| `Papertrail.Handler.SetFormatter` | noble_logging_utils/papertrail_logger.py:62 | the handler gets the formatter and keeps its level |
| `Papertrail.Handler.SetLevel` | noble_logging_utils/papertrail_logger.py:65 | the handler gets the level and keeps its formatter |
| `Papertrail.GetLogger` | noble_logging_utils/papertrail_logger.py:39-68 | the outcome is a resolution failure exactly when `Resolve` fails, a syslog failure exactly when `Resolve` succeeds and `OpenSyslog` fails, and configured to the resolved pair otherwise; level DEBUG and one new sanitising filter after the earlier ones in every case; when configured, exactly two new handlers after the earlier ones: syslog to the resolved pair with the Papertrail formatter, then standard output at DEBUG with no formatter; on either failure no handler is added, so repeated calls accumulate and a failed call leaves a partial configuration |

## Left out

- `logging.getLogger(__name__)` and its registry: the shared logger is passed to `GetLogger` by the caller. Python returns the same object on every call, so the effects accumulate.
- `Papertrail.OpenSyslog`: whether `getaddrinfo` and the socket succeed for the (host, port) pair depends on the network and the platform. The model takes this as the input `networkOk`.
  - A failure there is an exception from `getaddrinfo` or the socket. That is an `OSError`, or for example a `UnicodeError` for a host name that IDNA cannot encode. The model records only that the handler is not created.
  - Checking the port's range is left to the platform: a port outside 0..65535 may fail the lookup or be accepted. That check is folded into `networkOk`.
  - The Unix-socket form of the address is not used by the source.
- Sending records is not modelled: the syslog socket, writing to standard output, and record dispatch through handlers. Handlers are modelled only by their sink, level and formatter.
- The socket that is never closed, and thread safety of the shared logger, are not modelled.
- `Papertrail.Render`: `strftime` is library code and locale-dependent, so the timestamp is an already formatted string. The level name is also given as a string.
- `Papertrail.RenderFields` requires a level name without spaces. The standard names qualify. The library's `"Level N"` names for custom levels do not.
- `Papertrail.ContextFilter.Filter` requires the filter's `Valid()` invariant. The constructor establishes it for every filter. Record attributes are modelled as strings only.
- `os.environ` and the `import logging_secrets` machinery are inputs. Any exception raised inside the module while it is imported, other than its absence, is not modelled.
- `logging_secrets` attribute values are strings, integers or `None`. `int()` of a bool, float, bytes or an object with `__int__` is not modelled. The host attribute is passed through unconverted, as in the source.
- `PyInt.ParseInt`: `int()` also accepts non-ASCII Unicode decimal digits, which the model does not. The model also leaves out the interpreter's limit on the number of digits in a string conversion.
- The unused constants `SF_LOG_LIVE` and `SF_LOG_SANDBOX` and the empty `__main__` block carry no behaviour. `setup.py` is packaging metadata.
