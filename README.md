# Vank / visapi web framework core, modelled in Dafny

The repository holds three generations of one small Python web framework:

- `Vank/` (modules `Legacy*`): a WSGI framework with converter classes,
  string-template routes compiled to regular expressions, a router map, a
  signal bus, middleware chaining and a view dispatcher;
- `vank/` (modules `Vank*`): its successor, with WSGI and ASGI
  applications, typed route converters, a multipart/urlencoded body
  parser, request and response objects, CORS middleware, a websocket
  wrapper, settings validation and `import_from_str`;
- `visapi/` (modules `Visapi*`): the newest generation, with typed path
  convertors, route matching, a router, a first-value multi-value dict, a
  multipart form parser over a chunked body and an error-handler
  registry keyed by exception class.

The source files of both older generations come from more than one
revision. In `vank/`, `vank/core/app.py` imports `BaseResponse`,
`BaseMiddleware` and `vank.core.view`, and `vank/middleware/cors.py` uses
`ResponsePlain`, `Response400` and `context.current`, none of which the
`response.py` next to them defines. In `Vank/`, `Vank/core/app.py` imports
`Route` from `.route.router`, but `Vank/core/route/` holds only
`converters.py` and `route_map.py`; `Vank/core/views/view.py` imports
`BaseResponse`, which `Vank/core/http/response.py` does not define; and
`Vank/core/handlers/exception.py` calls `Response404()`, `Response405(allow)`,
`Response403()` and `Response500()`, while that `response.py` defines
`Response404(request, error)` and no 403 or 500 class. Each model follows the
file it cites:

- `LegacyApp` takes its `Route` from `Vank/core/routing/route.py` (modelled
  as `LegacyRoute`) and its route map from `Vank/core/route/route_map.py`;
- `LegacyView` and `LegacyExceptionHandler` follow `Vank/core/views/view.py`
  and `Vank/core/handlers/exception.py`, and read a response as a reply
  carrying a status code and the allowed methods (`LegacyCore.Reply`): the
  response classes those files call are taken to exist with the status
  their names give.

A file that a model needs and that is not at hand is named as not part of
this model.

Each Python module is a Dafny module. Code that computes values (parsers,
pattern matching, URL building, validation) is modelled by datatypes and
functions, with lemmas for the properties the code promises. Objects whose
methods update their fields (routers, route maps, the signal bus,
middleware chains, response objects, the multipart parsers, the
websocket) are Dafny classes whose methods are proved against
specification functions of their state. Regular expressions are modelled
by a small pattern language (`Patterns`) whose matcher follows Python's
`re` semantics for the patterns the framework builds: greedy classes that
give back characters when the rest of the pattern needs them, lazy groups
and Python's `$`, which also accepts one final newline.

Everything the code gets from outside (the WSGI environ, the ASGI
receive/send channel, the file system, clocks, character codecs,
`urllib` quoting, `importlib`) is a parameter of the model.

Shared helpers: `Wrappers` (Option/Result), `Text` (search, split, join,
case), `Bytes`, `Patterns` (the regular-expression subset),
`TemplateScan` (placeholder syntax), `OrderedDicts` (insertion-ordered
dictionaries) and `Callables` (Python call signatures).

## Model

| member | source | states |
|---|---|---|
| LegacyRoute.FirstOpen | Vank/core/routing/route.py:19 | the static group `[^<]*` ends at the first `<` at or after the position; when it finds none, the template holds no `<` from there on |
| LegacyRoute.LazyClose | Vank/core/routing/route.py:23-27 | the lazy argument group `(?P<conv_args>.*?)` stops only where `):variable>` closes the placeholder |
| LegacyRoute.LazyCloseFirst | Vank/core/routing/route.py:23 | the lazy group takes the shortest text: no earlier index closes the placeholder, and the arguments cross no newline |
| LegacyRoute.TagAt | Vank/core/routing/route.py:20-27 | a placeholder matched at a `<` starts there and ends inside the template |
| LegacyRoute.TagAtSpec | Vank/core/routing/route.py:20-27 | a matched placeholder has identifier names, and its text is exactly `<conv(args):var>` rebuilt from the converter, arguments and variable |
| LegacyRoute.IdentAt | Vank/core/routing/route.py:22 | the run read for `[a-zA-Z_][a-zA-Z0-9_]*` is an identifier |
| LegacyRoute.ParseRule | Vank/core/routing/route.py:63-101 | the generator's loop yields exactly the scan specification: static texts and placeholders in template order, each placeholder's arguments as `conv_args or None`, then SyntaxError for `<var>` without converter, LookupError for a repeated variable, or SyntaxError for a bracket in the trailing text; the empty template yields one empty item |
| LegacyRoute.PartsFromSources | Vank/core/routing/route.py:77-101 | when nothing is raised, the yielded parts put back as text are the template from the scan position on |
| LegacyRoute.TrailingFacts | Vank/core/routing/route.py:97-101 | the text after the last placeholder is yielded as one static part unless it holds `<` or `>` |
| LegacyRoute.PartsFromVars | Vank/core/routing/route.py:92-95 | every yielded part is well formed and the variables are pairwise distinct and new, so a repeated variable is always reported |
| LegacyRoute.NewRoute | Vank/core/routing/route.py:103-124 | `BaseRoute.__init__` with `build_rule_regex`'s loop gives exactly the compiled-route specification |
| LegacyRoute.RouteOfSpec | Vank/core/routing/route.py:103-124 | a route compiles iff the method list is accepted, every placeholder's converter is registered and the scanner raises nothing; the route is then well formed, its variables are in template order, each bound to its placeholder's converter, and the template is read back |
| LegacyRoute.ScanSpec | Vank/core/routing/route.py:63-101 | the yielded parts are well formed (no placeholder yields empty arguments), the variables distinct, and the template is read back when nothing is raised |
| LegacyRoute.ScanEmptyArgs | Vank/core/routing/route.py:95 | `<c():x>` yields `('c', None, 'x')`, since `conv_args or None` turns the empty arguments into None, and the part still reads back as `<c():x>` |
| LegacyRoute.ScanPlain | Vank/core/routing/route.py:97-101 | a non-empty template without brackets is yielded as one static text and nothing is raised |
| LegacyRoute.DotMatchesAny | Vank/core/routing/route.py:109-122 | literal text is put into the pattern unescaped: a bracket-free template matches every path its characters match as a regular expression, shown here for `.`, which matches any character but a newline (the other metacharacters are listed under Left out) |
| LegacyRoute.EmptyTemplate | Vank/core/routing/route.py:69-71 | the empty template compiles to `^$`, which matches the empty path and a lone newline and nothing else |
| LegacyRoute.ConvertArguments | Vank/core/routing/route.py:128-136 | the conversion succeeds iff every argument name has a converter and every converter accepts its value; the result then has the same names, each mapped to its converter's value |
| LegacyRoute.MatchedArgumentsKnown | Vank/core/routing/route.py:122-136 | after a full match the captured names are exactly the route's variables and each value is accepted by its converter's pattern, so `convert_arguments` cannot raise KeyError |
| LegacyRoute.UrlForRaises | Vank/core/routing/route.py:146-157 | `url_for` as written raises AttributeError for every route with a placeholder when its converters have no `name` (all shipped ones): from `converter.name` when the endpoint and argument names fit, and from evaluating the undefined `exceptions.UrlForNotFound` when they do not |
| LegacyRoute.Shown | Vank/core/routing/route.py:153-155 | each argument named by the route has its value's URL text |
| LegacyRoute.UrlForFixed | Vank/core/routing/route.py:148-149 | the corrected `url_for` succeeds iff the endpoint is the route's and the argument names are exactly its variables |
| LegacyRoute.UrlForFixedMatches | Vank/core/routing/route.py:146-157 | the URL the corrected `url_for` builds matches the route in full and captures exactly each argument's URL text, when those texts are delimited in the pattern |
| LegacyRoute.UrlForStatic | Vank/core/routing/route.py:146-157 | for a route without placeholders `url_for`, as written and with UrlForNotFound defined, returns the template itself |
| TemplateScan.IdentRun | vank/core/routing/route.py:13 | the identifier run read for `[a-zA-Z_][a-zA-Z0-9_]*` stays in the text, holds only identifier characters and is maximal |
| TemplateScan.PlaceholderAt | vank/core/routing/route.py:13 | a placeholder read at a `{` ends inside the template and has identifier variable and converter names |
| TemplateScan.PlaceholderAtSpan | vank/core/routing/route.py:13 | the text a placeholder was read from is exactly `{variable:converter}` |
| TemplateScan.PlaceholderAtText | vank/core/routing/route.py:13 | conversely, every `{variable:converter}` with identifier names is read as that placeholder |
| TemplateScan.FirstBrace | vank/core/routing/route.py:13 | the static group `[^{]*` ends at the first `{` at or after the start, and there is no `{` when it finds none |
| TemplateScan.Search | vank/core/routing/route.py:22 | a match found by `re.search` from a position lies at or after it |
| TemplateScan.SearchFound | vank/core/routing/route.py:22 | the match found is a well-formed placeholder at the first `{` that opens one, no earlier position opens one, its static text holds no `{`, and it starts at the search position or just after a `{` |
| TemplateScan.SearchNone | vank/core/routing/route.py:22-25 | when the search finds nothing, no position from the start on opens a placeholder |
| Patterns.RunLength | vank/core/routing/route.py:106 | a greedy character class `[c]{m,}` first takes the longest run of its class |
| Patterns.CandidatesSound | vank/core/routing/route.py:106 | every prefix length the backtracking engine tries for a converter's expression gives a text the expression accepts |
| Patterns.MatchSound | vank/core/routing/route.py:108-110 | a successful match of a compiled route captures exactly its group names, each capture accepted by its group's expression and the pieces read back the matched text, with `$` satisfied at the end |
| Patterns.RoundTrip | vank/core/routing/route.py:108-110 | matching the text rendered from a value per group, when the values are delimited, succeeds and captures exactly those values |
| Patterns.Restrict | vank/core/routing/route.py:108-110 | the captures of a match are the given values restricted to the pattern's group names |
| VankRoute.ParseRouteRule | vank/core/routing/route.py:17-39 | the generator's loop yields exactly the scan specification: the static text before each placeholder (when non-empty), the placeholder as (converter, variable), then the rest, or SyntaxError when the rest holds a brace |
| VankRoute.PartsWellFormed | vank/core/routing/route.py:17-39 | every yielded static text is non-empty and every placeholder has identifier converter and variable names |
| VankRoute.DropsTextBeforeBrace | vank/core/routing/route.py:22-32 | because `re.search` moves its start past a `{` that opens no placeholder, any such brace between the scan position and the next placeholder is never yielded: the static item before the placeholder starts just after the last such brace, and the text before it is silently dropped |
| VankRoute.DropsTextExample | vank/core/routing/route.py:22-32 | `/a{b}/{x:int}` yields only `b}/` and `x:int` |
| VankRoute.Setup | vank/core/routing/route.py:84-110 | `setup`'s loop builds exactly the compiled-pattern specification: escaped literals, one named group per variable, SyntaxError for a repeated variable or an unknown converter |
| VankRoute.BuildFromOk | vank/core/routing/route.py:89-106 | building succeeds iff every placeholder's converter is registered and the variables are distinct; the pieces, variable order and converter table are then those of the parts |
| VankRoute.ParseMethods | vank/core/routing/route.py:70-76 | no methods means all eight; otherwise the upper-cased methods are accepted iff they form a strict subset of the eight, and the result is the upper-cased list in order |
| VankRoute.AllEightRefused | vank/core/routing/route.py:74-75 | because the subset test is strict, listing all eight methods is refused; the refusal surfaces as AttributeError, since the ValueError's message reads `self.endpoint` before `__init__` sets it (see `VankApp.RouteExc`) |
| VankRoute.NewRoute | vank/core/routing/route.py:56-68 | `BaseRoute.__init__` gives exactly the route specification: method parsing first, then the scan and the compiled pattern |
| VankRoute.RouteOfValid | vank/core/routing/route.py:84-110 | a compiled route is well formed: registered converters, variables in template order, group names exactly the converter table's keys and every literal escaped |
| VankRoute.PiecesOfDistinct | vank/core/routing/route.py:97-98 | distinct variables give a pattern whose group names are distinct, as `re.compile` requires |
| VankRoute.PiecesOfShape | vank/core/routing/route.py:89-106 | the pattern's group names are the variables and the converter table's keys, and no literal is left unescaped |
| VankRoute.CheckMethodIgnoresCase | vank/core/routing/route.py:127-128 | `check_method` does not depend on the case of the request method |
| VankRoute.ConvertArguments | vank/core/routing/route.py:112-120 | conversion succeeds iff every argument name has a converter, keeps the names and maps each value through its converter; otherwise the unknown names (KeyError) are reported |
| VankRoute.MatchedArgumentsConvert | vank/core/routing/route.py:108-120 | after a full match the captured names are exactly the route's variables, so `convert_arguments` succeeds |
| VankRoute.Pop | vank/core/routing/route.py:140 | `arguments.pop(name)` removes exactly that name |
| VankRoute.Without | vank/core/routing/route.py:139-146 | the arguments left for the query are those not named by the route |
| VankRoute.Reflect | vank/core/routing/route.py:130-151 | `url_reflect` succeeds iff the endpoint is the route's and the arguments cover every variable (ReflectNotFound otherwise) |
| VankRoute.ReflectStatic | vank/core/routing/route.py:137-151 | for a route without placeholders and no arguments the URL is the quoted template |
| VankRoute.ReflectQuery | vank/core/routing/route.py:137-151 | the URL is the template with each placeholder replaced by its value, followed by `?` and the remaining arguments as `key=value` joined with `&` when any remain |
| VankRoute.QueryNonEmpty | vank/core/routing/route.py:146-148 | remaining arguments always give a non-empty query, so the `?` is added exactly when arguments remain |
| VankRoute.UrlReflect | vank/core/routing/route.py:130-151 | the method with its pop loop returns exactly the reflection specification |
| VankRoute.ReflectStep | vank/core/routing/route.py:139-145 | one loop step pops the current variable, whose value is the caller's, and replaces its placeholder |
| VisapiRoute.GetRuleParts | visapi/routing/route.py:27-41 | the generator's loop yields exactly the scan specification: (static, variable, convertor) for each placeholder found by `re.search`, then the rest as a static item, or SyntaxError when the rest holds a brace |
| VisapiRoute.ItemsWellFormed | visapi/routing/route.py:27-41 | every placeholder item has identifier names, and only the last item can be the trailing static text |
| VisapiRoute.NoBraceRule | visapi/routing/route.py:37-41 | a non-empty rule without braces is yielded as one static item |
| VisapiRoute.AcceptedConverts | visapi/routing/route.py:88-91 | whatever a convertor's expression captures, its `to_python` accepts; `str` passes the text through and `int` gives the decimal value |
| VisapiRoute.Build | visapi/routing/route.py:63-80 | `build`'s loop gives exactly the compiled-rule specification: each static text escaped, one group per variable, SyntaxError for a repeated variable or an unknown convertor |
| VisapiRoute.BuildOfSpec | visapi/routing/route.py:63-80 | a rule compiles iff no stray brace is left, every convertor is one of `int`, `str`, `float` and the variables are distinct; the result is then well formed with its variables in rule order |
| VisapiRoute.BuildFromOk | visapi/routing/route.py:65-76 | the build loop succeeds from any well-formed prefix iff the remaining items are known and keep the variables distinct, and extends the variable order by theirs |
| VisapiRoute.ConvertAll | visapi/routing/route.py:88-91 | `convert` fails only with KeyError for a missing captured value or the convertor's own ValueError |
| VisapiRoute.Convert | visapi/routing/route.py:88-91 | the loop over `self.dynamic` gives exactly the conversion specification |
| VisapiRoute.ConvertAllOk | visapi/routing/route.py:88-91 | when every variable has an accepted value, conversion succeeds, adds exactly the variables, each converted by its convertor, and leaves every other entry as it was |
| VisapiRoute.NewRouteValid | visapi/routing/route.py:111-118 | an HTTP route is built iff its method list is non-empty (the assertion) and the rule compiles, and keeps the methods upper-cased in order; a WebSocket route is built iff the rule compiles; every built route, group routes included, is well formed |
| VisapiRoute.Suffix | visapi/routing/route.py:124-126 | the path after `path_match_end` is a suffix of the path, as long as the path less that many characters, and empty when `path_match_end` is past the end |
| VisapiRoute.HttpCallback | visapi/routing/route.py:120-134 | an HTTP route returns None iff another protocol is asked for or its pattern does not match the rest of the path; it raises MethodNotAllowed (with the upper-cased method, GET by default) iff it matches and the method is not allowed; otherwise it wraps its callback with the group's and its own captures, converted |
| VisapiRoute.FinishFound | visapi/routing/route.py:132-134 | after a match of a well-formed route, the converted keyword arguments are always produced |
| VisapiRoute.WebSocketCallback | visapi/routing/route.py:140-150 | a WebSocket route returns a handler iff the protocol fits and its pattern matches; the request method plays no part |
| VisapiRoute.GroupCallback | visapi/routing/route.py:97-108 | a group route returns None when its prefix pattern does not match; otherwise it forwards the match end and captures to its members and turns their NotFound into None; what the caller passed as match end and captures plays no part |
| VisapiRoute.CallAllFirst | visapi/routing/router.py:51-60 | a router's lookup answers with the first route that does not return None |
| VisapiRoute.NeverNotFound | visapi/routing/route.py:97-150 | no single route raises NotFound: a group route turns its members' NotFound into None |
| VisapiRoute.CallAllMiss | visapi/routing/router.py:51-60 | the lookup raises NotFound iff every route returns None |
| VisapiRouter.AddHttpSpec | visapi/routing/router.py:21-54 | registering an HTTP route succeeds iff the rule starts with `/`, its `http:` entry is new, the route compiles and the view takes its placeholders (or `**kwargs`); it then appends the route; a bad rule or a taken path changes nothing, and once the rule is accepted the entry and display name stay recorded whatever fails later; the router invariant (valid routes, one entry per protocol and rule) is kept |
| VisapiRouter.AddWebSocketSpec | visapi/routing/router.py:68-80 | registering a WebSocket route succeeds iff the view is a coroutine function and the HTTP conditions hold for the `websocket:` entry; a non-coroutine view changes nothing |
| VisapiRouter.NamesNeverRefused | visapi/routing/router.py:30-32 | the name check builds a ValueError without raising it, so the names registered before never change the outcome |
| VisapiRouter.ProtocolsApart | visapi/routing/router.py:26 | an HTTP registration never reserves the same rule for WebSocket |
| VisapiRouter.PathStaysReserved | visapi/routing/router.py:26-29 | a rule registered for HTTP is refused the second time, whatever the methods, name or view, and the router is left unchanged |
| VisapiRouter.GroupPrefix | visapi/routing/router.py:100-104 | a group router is created iff its prefix does not end with `/`; no prefix means the empty prefix |
| VisapiRouter.MountSpec | visapi/routing/router.py:82-90 | mounting appends one group route over a snapshot of the group's routes with the group's prefix and name, reserves nothing, and fails (changing nothing) only when the prefix does not compile; later registrations on the group are not seen (see Left out) |
| VisapiRouter.Router.constructor | visapi/routing/router.py:16-19 | a new router has empty name set, path namespace and routes |
| VisapiRouter.Router.Group | visapi/routing/router.py:99-104 | a group router has its name, its checked prefix and an empty table |
| VisapiRouter.Router.AddRoute | visapi/routing/router.py:44-54 | `route(...)(callback)` updates the router exactly as the registration specification says |
| VisapiRouter.Router.Get | visapi/routing/router.py:56-57 | `get` registers an HTTP route for `GET` only |
| VisapiRouter.Router.Post | visapi/routing/router.py:59-60 | `post` registers an HTTP route for `POST` only |
| VisapiRouter.Router.Delete | visapi/routing/router.py:62-63 | `delete` registers an HTTP route for `DELETE` only |
| VisapiRouter.Router.Put | visapi/routing/router.py:65-66 | `put` registers an HTTP route for `PUT` only |
| VisapiRouter.Router.AddWebSocketRoute | visapi/routing/router.py:68-80 | `websocket(...)(callback)` updates the router exactly as the WebSocket registration specification says |
| VisapiRouter.Router.MountGroup | visapi/routing/router.py:82-90 | `mount_group` updates the router exactly as the mounting specification says, with the group's routes as they are when it is mounted |
| VisapiRouter.Router.Call | visapi/routing/router.py:92-96 | the lookup loop returns the first route's answer that is not None, and raises NotFound iff every route returns None |
| VisapiConvertor.BaseToPython | visapi/routing/convertor.py:8-9 | the base class's `to_python` always raises NotImplementedError |
| VisapiConvertor.BaseToUrl | visapi/routing/convertor.py:11-12 | the base class's `to_url` always raises NotImplementedError |
| VisapiConvertor.IntRoundTrip | visapi/routing/convertor.py:15-22 | every integer's URL text matches `-?\d+` and `int` reads it back as the same integer |
| VisapiConvertor.IntAcceptedConverts | visapi/routing/convertor.py:16-19 | every text `-?\d+` matches is accepted by `int` |
| VisapiConvertor.FirstIndex | visapi/routing/convertor.py:26-29 | the decimal point of a float text is the first `.`, or there is none |
| VisapiConvertor.FloatAcceptedConverts | visapi/routing/convertor.py:26-29 | every text the float expression matches is accepted by `float` |
| VisapiConvertor.UnsignedDecimalConverts | visapi/routing/convertor.py:26-29 | every unsigned decimal the expression admits (`\d+`, `\d+.`, `\d+.\d+`, `.\d+`) has a float value |
| VisapiConvertor.FloatOfInt | visapi/routing/convertor.py:16-29 | an integer text converts to the same integer as an exact decimal; binary64 rounding and overflow are not modelled (see Left out) |
| VisapiConvertor.TextRegexes | visapi/routing/convertor.py:35-100 | over the ASCII `\w` of this model: `[^/]+` admits exactly the non-empty texts without `/`, `[-\w]+` exactly the non-empty runs of ASCII letters, digits, `_` and `-`, `[^/].*?` only texts not starting with `/`; the three text convertors are the identity both ways (Unicode `\w` is listed under Left out) |
| VisapiConvertor.BoolRoundTrip | visapi/routing/convertor.py:68-80 | a boolean's URL text (`true`/`false`) matches the expression and reads back as the same boolean |
| VisapiConvertor.BoolAcceptedConverts | visapi/routing/convertor.py:69-77 | every text the expression matches converts: `true` and `1` to True, `false` and `0` to False |
| VisapiConvertor.BoolIgnoresCase | visapi/routing/convertor.py:72-77 | `to_python` ignores letter case |
| VisapiConvertor.WithoutHyphens | visapi/routing/convertor.py:61-62 | the hyphens `uuid.UUID` drops are all gone |
| VisapiConvertor.UuidToPython | visapi/routing/convertor.py:61-62 | an accepted UUID is 32 lowercase hexadecimal digits |
| VisapiConvertor.UuidRoundTrip | visapi/routing/convertor.py:57-65 | every text the UUID expression matches converts and prints back as itself |
| VisapiConvertor.UuidUrlRoundTrip | visapi/routing/convertor.py:57-65 | every UUID prints as text the expression matches and reads back as the same UUID |
| VankRouter.AddSpec | vank/core/routing/router.py:14-33 | `add_route` succeeds iff the path is new, the endpoint is new and the view takes the route's variables (or `**kwargs`); it then appends the route, records the path and maps the endpoint to the view, leaving every other endpoint's view as it was; the table stays consistent |
| VankRouter.FirstMatch | vank/core/routing/router.py:41-45 | the route chosen is the first whose pattern matches the path, and none matches when none is chosen |
| VankRouter.MatchFirstWins | vank/core/routing/router.py:41-53 | the first matching route decides: a method it refuses raises MethodNotAllowed with its method list and later routes are never tried |
| VankRouter.MatchNotFound | vank/core/routing/router.py:55-56 | `match` raises NotFound iff no route's pattern matches the path |
| VankRouter.MatchFound | vank/core/routing/router.py:41-53 | for the first matching route, a refused method raises MethodNotAllowed; an allowed one returns the endpoint's view with exactly the route's variables, each converted by its converter |
| VankRouter.MatchIgnoresLater | vank/core/routing/router.py:41-53 | routes added after one that matches never change the outcome |
| VankRouter.FirstReflect | vank/core/routing/router.py:76-82 | the route that answers `url_reflect` is the first that does not raise ReflectNotFound |
| VankRouter.ReflectByEndpoint | vank/core/routing/router.py:76-82 | in a consistent router the route with the asked endpoint answers, and ReflectNotFound is raised when no route has that endpoint |
| VankRouter.IncludeAllSpec | vank/core/routing/router.py:63-74 | `include_router` keeps the table consistent and appends the sub-router's routes in order, stopping after the prefix that was added when one fails |
| VankRouter.Router.constructor | vank/core/routing/router.py:8-12 | a new router has no routes, paths or endpoints |
| VankRouter.Router.AddRoute | vank/core/routing/router.py:14-33 | the router's state becomes what the registration specification gives, and is unchanged on an error |
| VankRouter.Router.Match | vank/core/routing/router.py:35-56 | the loop returns exactly the matching specification |
| VankRouter.Router.IncludeRouter | vank/core/routing/router.py:63-74 | the loop updates the router exactly as the inclusion specification says |
| VankRouter.Router.UrlReflectAll | vank/core/routing/router.py:76-82 | the loop returns exactly the first route's reflection, or ReflectNotFound |
| LegacyRouter.AddSpec | Vank/core/routing/router.py:12-26 | `add_route` refuses a known path and changes nothing; otherwise it appends the route and records the path first, then fails with ValueError, leaving the views as they were, iff the endpoint already names another view; on success the endpoint maps to the view; the table stays consistent |
| LegacyRouter.SameViewAccepted | Vank/core/routing/router.py:22-26 | an endpoint may be registered again for the same view |
| LegacyRouter.FirstMatch | Vank/core/routing/router.py:35-39 | the route chosen is the first whose pattern matches the path, and none matches when none is chosen |
| LegacyRouter.MethodMismatchRaisesTypeError | Vank/core/routing/router.py:40-42 | as written, a refused method raises TypeError (the exception class takes no `allow` keyword), so MethodNotAllowedException is never reported; the intended dispatch raises it with the route's methods; both agree on allowed methods |
| LegacyRouter.MatchFirstWins | Vank/core/routing/router.py:35-46 | with the intended dispatch, the first matching route decides and a refused method is reported with its method list |
| LegacyRouter.MatchNotFound | Vank/core/routing/router.py:48-49 | `match` raises NotFoundException iff no route's pattern matches the path |
| LegacyRouter.MatchFound | Vank/core/routing/router.py:43-46 | for the first matching route and an allowed method, `match` succeeds iff every capture converts, and then returns the endpoint's view with the route's variables converted |
| LegacyRouter.IncludeAllSpec | Vank/core/routing/router.py:56-67 | `include_router` keeps the table consistent and appends the sub-router's routes in order, stopping after a prefix when one fails |
| LegacyRouter.FirstUrl | Vank/core/routing/router.py:69-75 | with UrlForNotFound defined (the intended lookup of the Findings row for router.py:69-75), the route that answers `url_for` is the first that does not raise UrlForNotFound |
| LegacyRouter.UrlForInAsWrittenFirstOnly | Vank/core/routing/router.py:69-75 | as written the `except` clause and the final `raise` evaluate the undefined `exceptions.UrlForNotFound`, so only the first route is asked: the lookup answers only when that route is the one asked for, agrees with the intended lookup then, and raises AttributeError for a later route the intended lookup finds |
| LegacyRouter.UrlForInSpec | Vank/core/routing/router.py:69-75 | with UrlForNotFound defined, `url_for` raises UrlForNotFound iff no route has the endpoint with exactly the given argument names; otherwise the first such route answers (as written see UrlForInAsWrittenFirstOnly) |
| LegacyRouter.UrlForFound | Vank/core/routing/route.py:146-149 | with UrlForNotFound defined, a route's `url_for` raises it iff the endpoint or the argument names differ; as written that raise is an AttributeError (`UrlForAsWritten`) |
| LegacyRouter.SubstituteNeverNotFound | Vank/core/routing/route.py:150-157 | the substitution loop itself never raises UrlForNotFound, so any other error reaches the caller of the router |
| LegacyRouter.Router.constructor | Vank/core/routing/router.py:6-10 | a new router has no routes, paths or endpoints |
| LegacyRouter.Router.AddRoute | Vank/core/routing/router.py:12-26 | the router's state becomes what the registration specification gives |
| LegacyRouter.Router.Match | Vank/core/routing/router.py:28-49 | the loop returns exactly the matching specification (with the intended method check) |
| LegacyRouter.Router.IncludeRouter | Vank/core/routing/router.py:56-67 | the loop updates the router exactly as the inclusion specification says |
| LegacyRouter.Router.UrlForAll | Vank/core/routing/router.py:69-75 | the intended loop, with UrlForNotFound defined: it returns exactly the first answering route's URL, or UrlForNotFound |
| LegacyRouteMap.AddSpec | Vank/core/route/route_map.py:10-18 | `add_route` raises LookupError iff the path is already known; otherwise it appends the route, keeps the earlier ones in order and records the path |
| LegacyRouteMap.MatchSpec | Vank/core/route/route_map.py:20-40 | `match` raises NotFoundException iff no route matches; the first matching route decides: a refused method raises MethodNotAllowedException, and a success returns its endpoint with the captures converted |
| LegacyRouteMap.RouteMap.constructor | Vank/core/route/route_map.py:6-8 | a new map has no routes and no paths |
| LegacyRouteMap.RouteMap.AddRoute | Vank/core/route/route_map.py:10-18 | the map's contents become what the registration specification gives, and are unchanged on an error |
| LegacyRouteMap.RouteMap.Match | Vank/core/route/route_map.py:20-40 | the loop returns exactly the matching specification |
| LegacyConverters.IntConverterRoundTrip | Vank/core/routing/converters.py:35-42 | a non-negative integer's URL text matches `\d+` and reads back as the same integer; a negative one's text does not match, so such a URL can never be routed |
| LegacyConverters.IntConverterAccepted | Vank/core/routing/converters.py:35-42 | every text `\d+` matches converts to its decimal value |
| LegacyConverters.TextConverters | Vank/core/routing/converters.py:46-96 | the str and path converters are the identity both ways; `[^/]+` admits exactly the non-empty texts without `/`, and `.*` exactly the texts without a newline, the empty one included |
| LegacyConverters.UuidConverterRoundTrip | Vank/core/routing/converters.py:79-86 | every text the UUID expression matches converts and prints back as itself |
| LegacyApp.RouteExc | Vank/core/app.py:24 | every error of building a route is an `Exception` the caller sees |
| LegacyApp.MatchExc | Vank/core/route/route_map.py:34-40 | the route map's errors are `Exception`s, and its MethodNotAllowedException carries no `allow` |
| LegacyApp.EndpointOf | Vank/core/app.py:22 | the endpoint is the `endpoint` keyword when it is given and truthy, and the view's `__name__` when it is missing or falsy (None or empty); a falsy one given explicitly makes `__set_route` raise TypeError before the endpoint is used (see SetRouteSpec) |
| LegacyApp.SetRouteSpec | Vank/core/app.py:17-34 | an explicit falsy `endpoint` stays in `kwargs` and raises TypeError (two values for `endpoint`), changing nothing; otherwise `__set_route` keeps every route's endpoint bound to a view; a route that does not build, or a known path, changes nothing; otherwise the route is added first, and then an endpoint already bound to another view raises ValueError without rebinding it, while a new endpoint or the same view binds it |
| LegacyApp.RouteEndpoint | Vank/core/app.py:22-24 | a built route carries the endpoint it was built with |
| LegacyApp.AttemptCovered | Vank/core/app.py:61-70 | while every route has a view, dispatch never raises KeyError: the matching route's view is called with the converted captures |
| LegacyApp.RespondDefault | Vank/core/app.py:83-98 | with the default handler, a path no route matches is answered 404; a view that returns is answered with its value; a view that raises an `Exception` gets the handler's answer for it |
| LegacyApp.MethodMismatchEscapes | Vank/core/app.py:92-96 | a method the first matching route refuses is never answered: the route map's exception has no `allow`, and the default handler reading it raises AttributeError out of `__call__` |
| LegacyApp.App.constructor | Vank/core/app.py:11-15 | a new application has an empty route map, no endpoints and the default error handler |
| LegacyApp.App.SetRouteOf | Vank/core/app.py:17-34 | the route map and the endpoints change exactly as the registration specification says, and the error handler does not |
| LegacyApp.App.NewRouteOf | Vank/core/app.py:36-45 | a non-callable view or a path not starting with `/` raises AssertionError and changes nothing; otherwise the route is registered as `__set_route` says |
| LegacyApp.App.Start | Vank/core/app.py:54 | `start` proceeds iff at least one endpoint is registered |
| VankApp.SetRouteSpec | vank/core/app.py:30-42 | `_set_route` succeeds iff the path starts with `/`, the endpoint is a non-empty str, the route builds and the router accepts it; it then appends exactly one route with that path, endpoint and methods and binds the endpoint; any error leaves the router unchanged and names its cause (AssertionError, ValueError for the endpoint, AttributeError for a refused method list, SyntaxError for the template, the router's error) |
| VankApp.SetRoute | vank/core/app.py:30-42 | the router changes exactly as the registration specification says |
| VankApp.AdaptSpec | vank/core/app.py:44-59 | with the corrected per-class singleton (Findings row for vank/core/views/view.py:49-53; as written a subclass view constructed after its base gets the base's instance, methods and name): a class view with explicit methods, or an object that is neither a function nor a View subclass, raises ValueError and changes nothing; a class view alone is instantiated and answers with its own methods; a function passes through with the given methods |
| VankApp.AllEightClassViewRefused | vank/core/app.py:44-65 | a class view that defines all eight method handlers can never be registered: its method list is all eight, which the strict subset test refuses, and the refusal surfaces as AttributeError |
| VankApp.HttpMethodsRefused | vank/core/routing/route.py:74-75 | the full list of view method names is refused as a route's methods |
| VankApp.UpperHttpMethods | vank/core/views/view.py:9 | the view method names upper-cased are exactly the eight route methods |
| VankApp.AdaptViewFunc | vank/core/app.py:44-59 | with the corrected per-class singleton (Findings row for vank/core/views/view.py:49-53; as written a subclass view constructed after its base gets the base's instance, methods and name): the view table changes exactly as the adaptation specification says |
| VankApp.EndpointFor | vank/core/app.py:273-296 | a missing or None endpoint becomes the view's name in the application and `name.view` in a sub-application; a given one is kept |
| VankApp.Register | vank/core/app.py:61-68 | with the corrected per-class singleton (Findings row for vank/core/views/view.py:49-53; as written a subclass view constructed after its base gets the base's instance, methods and name): `new_route(...)(func_or_class)` adapts the view, names the endpoint and registers the route exactly as specified |
| VankApp.ShortcutSpec | vank/core/app.py:70-98 | a verb shortcut refuses class views, and a registered route then allows exactly that verb in any letter case |
| VankApp.VerbMethodsParse | vank/core/app.py:70-98 | each shortcut's one-method list is accepted unchanged |
| VankApp.ViewAnswer | vank/core/app.py:169-174 | a truthy answer of the view hooks is the answer of one of them |
| VankApp.FirstTruthyHookWins | vank/core/app.py:169-174 | the first hook that raises or answers truthily decides, and later hooks are not run |
| VankApp.RunViewHooks | vank/core/app.py:169-174 | the loop returns exactly the hook-answer specification |
| VankApp.GetResponseCallsView | vank/core/app.py:165-183 | when every hook answers falsily, the view is called with the route's arguments updated by the caller's keywords, and a result that is not a response raises NoResponseException |
| VankApp.PositionalArgumentsDropped | vank/core/app.py:154-178 | the positional arguments passed to `__get_response` never reach the view |
| VankApp.HookAnswerSkipsView | vank/core/app.py:171-178 | when a hook answers truthily, the view is not called |
| VankApp.EntryAnswersErrors | vank/core/app.py:128-152 | with middlewares that define no hooks, an unmatched path is answered 404 and a refused method 405 with the route's allowed methods |
| VankApp.StackOfSpec | vank/core/app.py:137-152 | building the middleware stack fails with the first import or subclass error in reverse settings order (TypeError from `issubclass` for an entry that is not a class, ValueError for a class that is not a BaseMiddleware); otherwise the view hooks are those of the middlewares in settings order, before any already present |
| VankApp.Application.constructor | vank/core/app.py:105-116 | a new application has an empty router, no view hooks, no entry function and no sub-applications |
| VankApp.Application.NewRoute | vank/core/app.py:61-68 | with the corrected per-class singleton (Findings row for vank/core/views/view.py:49-53; as written a subclass view constructed after its base gets the base's instance, methods and name): registration in the application names endpoints after the view |
| VankApp.Application.Shortcut | vank/core/app.py:70-98 | `get`, `post`, `put`, `patch` and `delete` register with their one method |
| VankApp.Application.Include | vank/core/app.py:208-224 | an import error is passed on and a non-SubApplication raises TypeError, both changing nothing; a repeated name raises ValueError changing nothing; otherwise the sub-application's routes are included as the router specifies, and it is bound to the application and recorded under its name |
| VankApp.Application.InitializeMiddlewareStack | vank/core/app.py:128-152 | the stack is built as specified (TypeError for a non-class entry, ValueError for a non-middleware class): on success the entry layers are the middlewares' and the view hooks are prepended in settings order; on an error the entry is left as it was |
| VankApp.Application.UrlReflect | vank/core/app.py:270-271 | the application's `url_reflect` answers with the router's reflection, or ReflectNotFound |
| VankApp.SubApplication.constructor | vank/core/app.py:281-289 | a sub-application has its name, its checked prefix, an empty router and no root |
| VankApp.SubApplication.NewRoute | vank/core/app.py:298-303 | with the corrected per-class singleton (Findings row for vank/core/views/view.py:49-53; as written a subclass view constructed after its base gets the base's instance, methods and name): with a prefix, a path not starting with `/` raises AssertionError and changes nothing; otherwise the prefix is prepended and the endpoint is named `name.view` |
| VankApp.SubApplication.UrlReflect | vank/core/app.py:305-309 | a sub-application not yet included raises TypeError; an included one answers with its root's reflection |
| VankApp.NewSubApplication | vank/core/app.py:282-289 | a sub-application is created iff its prefix, when non-empty, starts and does not end with `/`; otherwise AssertionError |
| VankApp.SubRouteUnderPrefix | vank/core/app.py:291-303 | a route registered in a sub-application lies under its prefix and its endpoint is `name.view` bound to that view |
| ViewMethods.Defined | vank/core/views/view.py:26-27 | the methods kept are exactly the listed names the class defines, in list order |
| ViewMethods.DefinedDistinct | vank/core/views/view.py:26-27 | the method list keeps no name twice |
| ViewMethods.DefinedAll | vank/core/views/view.py:26-27 | a class defining every listed name keeps the whole list |
| ViewMethods.GetPostFirst | vank/core/views/view.py:26-27 | a class defining `get` and `post` lists them first, in that order |
| VankView.GetViewMethods | vank/core/views/view.py:24-30 | `get_view_methods` raises NoneViewMethodException iff the class defines none of the eight method names; otherwise it lists exactly those it defines, without repetition |
| VankView.GetViewMethodsOrder | vank/core/views/view.py:26-27 | `get` and `post`, when both defined, come first in that order |
| VankView.CallViewDispatch | vank/core/views/view.py:32-40 | a request whose method is one the view lists, in upper case, reaches that method with the call's own arguments |
| VankView.CallViewUndefined | vank/core/views/view.py:32-34 | a method the view does not define raises AttributeError |
| VankView.InstanceCallback | vank/core/views/view.py:36-44 | the registered instance is called with any arguments, is not a coroutine and is named after its class |
| VankView.FirstSet | vank/core/views/view.py:50 | the class attribute lookup finds the first class along the MRO whose slot is set, and nothing when none is |
| VankView.SubclassGetsBaseInstance | vank/core/views/view.py:49-53 | as written, constructing `B(A)` after `A` returns `A`'s instance, while the per-class singleton gives `B` an instance of its own |
| VankView.AsWrittenSameClassTwice | vank/core/views/view.py:49-53 | as written, constructing the same class twice returns the same instance and changes nothing the second time |
| VankView.OwnSlotSingleton | vank/core/views/view.py:49-53 | with a slot per class, constructing a class again returns its one instance, and different classes never share an instance |
| VankView.ViewClasses.constructor | vank/core/views/view.py:22 | before any construction no class has an instance |
| VankView.ViewClasses.Construct | vank/core/views/view.py:49-53 | with the corrected per-class singleton (Findings row for vank/core/views/view.py:49-53; as written a subclass view constructed after its base gets the base's instance, methods and name): construction updates the slots exactly as the per-class singleton specification says |
| LegacyView.GetViewMethodsSpec | Vank/core/views/view.py:27-33 | `get_view_methods` raises NoneViewMethodException iff the view defines none of the eight method names; otherwise it lists exactly those it defines |
| LegacyView.GetViewMethodsOrder | Vank/core/views/view.py:29-30 | the list has no repetition and starts with `get`, `post` when both are defined |
| LegacyView.GetResponseDispatch | Vank/core/views/view.py:35-43 | a request whose method is one the view lists reaches that method with the call's own arguments |
| LegacyView.MiddlewareClass.constructor | Vank/core/views/view.py:75-87 | a middleware class is recorded with its own and inherited `handle_request`, its `handle_response` and `handle_view` |
| LegacyView.SetupAt | Vank/core/views/view.py:75-88 | `setup` handles the classes one at a time in order and stops at the first failure |
| LegacyView.SetupSuccess | Vank/core/views/view.py:73-88 | a successful `setup` adds one layer per class in order and collects the view hooks in order; without `force_handle_request` every class loses its own `handle_request`, so each layer runs the `handle_request` it inherits (the no-op of `BaseMiddleware` when no other base defines one); with it nothing is deleted and each layer keeps its own |
| LegacyView.OwnStaysRemoved | Vank/core/views/view.py:79-80 | a `handle_request` deleted from a class stays deleted through later setups |
| LegacyView.SameClassTwice | Vank/core/views/view.py:79-80 | as written, a middleware class listed twice whose `handle_request` is inherited makes the second `delattr` raise AttributeError |
| LegacyView.SetupIntendedSpec | Vank/core/views/view.py:73-88 | the intended setup succeeds iff every class subclasses BaseMiddleware, gives one layer per class, and without `force_handle_request` none of them runs `handle_request` while each keeps its `handle_response` |
| LegacyView.OutermostDecides | Vank/middleware/base.py:53-66 | when the outermost middleware's `handle_request` answers truthily, nothing inside it runs |
| LegacyView.KeywordsReachHandler | Vank/core/views/view.py:90-91 | a view called with keyword arguments never reaches its method: the outermost middleware's `__call__` takes only the request, and the TypeError goes to the error handler |
| LegacyView.Checked | Vank/core/views/view.py:92-93 | the view returns only responses; a non-response raises NonResponseException and errors pass through |
| LegacyView.MiddlewareView.constructor | Vank/core/views/view.py:62-70 | the view records its methods, middlewares, error handler and force flag, with no layers or hooks yet |
| LegacyView.MiddlewareView.Setup | Vank/core/views/view.py:73-88 | the method changes the layers, hooks and the classes' own `handle_request` exactly as the setup specification says |
| LegacyView.MiddlewareView.SetupClass | Vank/core/views/view.py:76-88 | one class of the loop: its exception, or its removed own `handle_request`, its instance and its `handle_view` hook, exactly as one step of the setup specification says; every other class keeps its own hook |
| LegacyView.MiddlewareView.Answer | Vank/core/views/view.py:90-94 | a successful call of the view always answers with a response |
| LegacyView.NewMiddlewareView | Vank/core/views/view.py:66-71 | no middlewares raises ValueError; otherwise construction fails iff setup fails, and otherwise holds the layers and hooks setup built |
| LegacyMiddleware.BasePassesThrough | Vank/middleware/base.py:26-66 | a middleware whose hooks are the base class's no-ops answers exactly as the next handler does |
| LegacyMiddleware.RequestHookShortCircuits | Vank/middleware/base.py:53-66 | a truthy `handle_request` result skips the next handler, whatever it is, and goes through `handle_response` when there is one |
| LegacyMiddleware.NextCalledOtherwise | Vank/middleware/base.py:59-66 | with no request hook or a falsy one, the next handler's response goes through `handle_response`, and its error propagates unchanged |
| LegacyMiddleware.ViewHookUnused | Vank/middleware/base.py:53-66 | changing `handle_view` never changes what the middleware answers |
| LegacyMiddleware.KeywordsRefused | Vank/middleware/base.py:53 | calling the middleware with keyword arguments raises TypeError |
| VankMiddleware.New | vank/middleware/base.py:6-9 | the middleware keeps its hooks and next link and is a coroutine exactly when the next link is |
| VankMiddleware.AsyncExactlyAfterCoroutine | vank/middleware/base.py:47-49 | the call goes to the async handler exactly when the next link is a coroutine |
| VankMiddleware.AsLink | vank/middleware/base.py:47-49 | the middleware seen as a link is a coroutine exactly when it dispatches to the async handler |
| VankMiddleware.NoHooksPassThrough | vank/middleware/base.py:11-24 | a middleware without hooks answers exactly as the next link |
| VankMiddleware.RequestHookShortCircuits | vank/middleware/base.py:14-24 | a truthy request-hook result is the answer (after `handle_response` when defined) whatever the next link and the call |
| VankMiddleware.NextCalledOtherwise | vank/middleware/base.py:17-22 | otherwise the next link's response goes through `handle_response` and its error propagates unchanged |
| VankMiddleware.RequestHookRaise | vank/middleware/base.py:14-15 | an exception raised by the request hook is the middleware's outcome |
| VankApplicationBase.KeywordConverterRefused | vank/utils/arguments.py:34-40 | a converter taking only `**kwargs` is refused by the check as written although the intended check accepts it |
| VankApplicationBase.ConverterAcceptedWidens | vank/core/application/base.py:28-34 | the intended converter check accepts everything the written one does and in addition exactly the converters with `**kwargs` and no `*args` |
| VankApplicationBase.HooksOf | vank/core/application/base.py:36-43 | one hook set per configured middleware, in configured order |
| VankApplicationBase.HooksOfStep | vank/core/application/base.py:36-43 | the hooks of a suffix are its first entry's hooks followed by the hooks of the rest |
| VankApplicationBase.Refused | vank/core/application/base.py:37-41 | a refused middleware entry raises an exception: TypeError from `issubclass` exactly when the entry is not a class, the check's ValueError exactly when it is a class that is not a `Middleware` |
| VankApplicationBase.ChainError | vank/core/application/base.py:36-41 | middleware setup fails exactly when some configured entry fails to import or is not a `Middleware` class; the error of an entry that is not a class at all is the TypeError `issubclass` raises, that of a class the ValueError |
| VankApplicationBase.ChainErrorIsLastFailure | vank/core/application/base.py:36-41 | since the list is walked from its end, the error reported is the one of the last failing entry (its import error, TypeError for a non-class, ValueError for a non-middleware class), every entry after it being a valid middleware |
| VankApplicationBase.ChainKeepsCoroutineKind | vank/core/application/base.py:35-43 | the built chain is a coroutine exactly when `finalize` is |
| VankApplicationBase.ChainContainsExceptions | vank/core/application/base.py:35-43 | with a converter that always answers, no `Exception` escapes the chain |
| VankApplicationBase.HooklessChainTransparent | vank/core/application/base.py:35-43 | a chain of hookless middlewares answers as the guarded `finalize` |
| VankApplicationBase.FirstConfiguredIsOutermost | vank/core/application/base.py:36-43 | the first configured middleware is the outermost: its truthy request hook decides the answer whatever follows it |
| VankApplicationBase.MiddlewareApp.constructor | vank/core/application/base.py:15-18 | the app keeps its converter and `finalize` and has no entry point yet |
| VankApplicationBase.MiddlewareApp.InitMiddleware | vank/core/application/base.py:27-44 | with the corrected converter check (Findings row for vank/utils/arguments.py:34-40; as written a converter taking only `**kwargs` is refused with ValueError): on success the entry point becomes the chain built from the configured middlewares; on failure the error is returned and the entry point is unchanged |
| LegacyExceptionHandler.GuardSpec | Vank/core/handlers/exception.py:10-24 | a response passes through; an `Exception` goes to the handler; a `BaseException` that is not an `Exception` passes through, and any escaping `Exception` comes from the handler |
| LegacyExceptionHandler.GuardTwice | Vank/core/handlers/exception.py:10-24 | with a handler that always answers, guarding twice is the same as guarding once |
| LegacyExceptionHandler.DefaultHandlerSpec | Vank/core/handlers/exception.py:27-44 | 404 for NotFound, 405 with the allowed methods for MethodNotAllowed, 403 for PermissionDenied, 500 otherwise, and AttributeError when a MethodNotAllowed has no `allow` |
| VankExceptionHandler.GuardKeepsCoroutineKind | vank/core/handlers/exception.py:9-29 | the guarded link is a coroutine exactly when the wrapped one is |
| VankExceptionHandler.GuardPassesReturn | vank/core/handlers/exception.py:17-21 | a normal return passes through unchanged |
| VankExceptionHandler.GuardConverts | vank/core/handlers/exception.py:19-21 | an `Exception` is replaced by the converter's outcome |
| VankExceptionHandler.GuardLetsBaseExceptionsThrough | vank/core/handlers/exception.py:19-21 | a `BaseException` that is not an `Exception` passes through |
| VankExceptionHandler.GuardContainsExceptions | vank/core/handlers/exception.py:9-29 | with a converter that always answers, no `Exception` escapes |
| VankExceptionHandler.GuardTwice | vank/core/handlers/exception.py:9-29 | with such a converter, guarding twice is guarding once |
| VankExceptionHandler.DefaultConverter | vank/core/handlers/exception.py:32-48 | always a response: 404 for NotFound, 405 carrying the allowed methods, 403 for PermissionDenied, and 500 exactly for everything else |
| VankExceptionHandler.MethodMismatchAnswered | vank/core/handlers/exception.py:41-42 | a MethodNotAllowed is answered 405 with its allowed methods |
| LegacyCore.Raise | Vank/core/exceptions.py:7-24 | a raised framework exception is an `Exception`, is an instance of its own class and carries no `allow` |
| LegacyException.Reason | Vank/utils/exception.py:6-16 | the reason is the first argument when that is a str, and the fixed unknown-error text when there are no arguments or the first is not a str |
| LegacyException.ReasonFirstArgOnly | Vank/utils/exception.py:12-14 | arguments after the first never change the reason |
| LegacyDatastructures.OverwriteSpec | Vank/utils/datastructures.py:15-16 | a write puts the data at the position, keeps every other byte, zero-fills a gap past the end and grows the file to the write's end |
| LegacyDatastructures.ReadSpanSpec | Vank/utils/datastructures.py:18-19 | a read returns the bytes at the position: all that remain for a negative size, else as many as asked for and available |
| LegacyDatastructures.ReadBackWritten | Vank/utils/datastructures.py:15-22 | reading back from where data was written returns exactly that data |
| LegacyDatastructures.UploadFile.constructor | Vank/utils/datastructures.py:9-13 | the file keeps its name, content type and headers and starts empty, at position 0, open |
| LegacyDatastructures.UploadFile.Write | Vank/utils/datastructures.py:15-16 | the content becomes the overwrite at the old position and the position moves past the data |
| LegacyDatastructures.UploadFile.Read | Vank/utils/datastructures.py:18-19 | the bytes read are the read span at the old position, which then moves past them; the content is unchanged |
| LegacyDatastructures.UploadFile.Tell | Vank/utils/datastructures.py:27-28 | the current position |
| LegacyDatastructures.UploadFile.Seek | Vank/utils/datastructures.py:21-22 | a non-negative offset becomes the position and nothing else changes; a negative one raises ValueError and changes nothing |
| LegacyDatastructures.UploadFile.Close | Vank/utils/datastructures.py:24-25 | the file is closed and its content and position stay |
| LegacyDatastructures.NewForm | Vank/utils/datastructures.py:38-42 | without arguments the form is empty; otherwise its keys are exactly the pair keys and each maps to the last value given for it |
| LegacyDatastructures.Get | Vank/utils/datastructures.py:44-45 | the stored item for a present key, the default otherwise |
| LegacyDatastructures.Close | Vank/utils/datastructures.py:56-57 | every upload file in the form is closed, and no file's content or position changes |
| LegacyParsers.SliceOf | Vank/utils/parsers.py:55-56 | `data[start:end]` is the slice itself whenever the bounds are in order, and never longer than the data |
| LegacyParsers.BoundaryOf | Vank/utils/parsers.py:80-83 | the boundary lookup never raises, so the ParseException branch is dead; the boundary is None exactly when the parameter is missing |
| LegacyParsers.PartStep | Vank/utils/parsers.py:97-145 | one event keeps the parser state well formed and never drops a file already created |
| LegacyParsers.PartStepSpec | Vank/utils/parsers.py:98-145 | per event: a new part resets its state; a header end records the lower-cased header; headers-finished fails exactly without a `name` and creates a file exactly with a `filename`; data goes to the file or the field buffer; a part end appends the item |
| LegacyParsers.PartFold | Vank/utils/parsers.py:97-145 | folding the recorded events keeps the state well formed and the files |
| LegacyParsers.Resolve | Vank/utils/parsers.py:142-147 | each item keeps its name; field bytes stay bytes and a file entry becomes its upload file object |
| LegacyParsers.DataEventsField | Vank/utils/parsers.py:135-137 | in a field part the data events append their bytes, concatenated, to the field buffer |
| LegacyParsers.PartFoldAppend | Vank/utils/parsers.py:97 | folding two event runs is folding the first and then the second from its state, an error stopping the fold |
| LegacyParsers.MissingNameRefused | Vank/utils/parsers.py:116-124 | a part whose disposition has no `name` fails the parse with ParseException |
| LegacyParsers.FieldPartItem | Vank/utils/parsers.py:116-142 | a named part without filename contributes exactly one item: its decoded name with all its data bytes |
| LegacyParsers.MultiPartParser.constructor | Vank/utils/parsers.py:34-50 | the parser keeps its parameters and has recorded no event |
| LegacyParsers.MultiPartParser.OnPartBegin | Vank/utils/parsers.py:52-53 | records a part begin |
| LegacyParsers.MultiPartParser.OnPartData | Vank/utils/parsers.py:55-56 | records the data slice |
| LegacyParsers.MultiPartParser.OnPartEnd | Vank/utils/parsers.py:58-59 | records a part end |
| LegacyParsers.MultiPartParser.OnHeaderBegin | Vank/utils/parsers.py:61-62 | records a header begin |
| LegacyParsers.MultiPartParser.OnHeaderField | Vank/utils/parsers.py:64-65 | records the header-field slice |
| LegacyParsers.MultiPartParser.OnHeaderValue | Vank/utils/parsers.py:67-68 | records the header-value slice |
| LegacyParsers.MultiPartParser.OnHeaderEnd | Vank/utils/parsers.py:70-71 | records a header end |
| LegacyParsers.MultiPartParser.OnHeadersFinished | Vank/utils/parsers.py:73-74 | records headers-finished |
| LegacyParsers.MultiPartParser.OnEnd | Vank/utils/parsers.py:76-77 | records the end |
| LegacyParsers.MultiPartParser.ApplyEvent | Vank/utils/parsers.py:125-144 | one event's callbacks keep the upload objects equal to the fold's file states: a file part's headers append one fresh, distinct object, its data and its end change only the current object; earlier objects stay in place |
| LegacyParsers.MultiPartParser.Run | Vank/utils/parsers.py:79-147 | the loop over the recorded events fails exactly when the fold fails, with its error; otherwise it creates one fresh, distinct upload file per file part, holding that part's bytes, and returns the form of the resolved items |
| LegacyParsers.FieldFoldItems | Vank/utils/parsers.py:189-200 | the fold keeps the earlier items and appends exactly one item per field end |
| LegacyParsers.FieldItem | Vank/utils/parsers.py:190-200 | a field's name and value are latin-1 decoded and unquoted into one item |
| LegacyParsers.FormParser.constructor | Vank/utils/parsers.py:151-160 | no event recorded |
| LegacyParsers.FormParser.OnFieldStart | Vank/utils/parsers.py:162-164 | records a field start |
| LegacyParsers.FormParser.OnFieldName | Vank/utils/parsers.py:166-168 | records the name slice |
| LegacyParsers.FormParser.OnFieldData | Vank/utils/parsers.py:170-172 | records the data slice |
| LegacyParsers.FormParser.OnFieldEnd | Vank/utils/parsers.py:174-176 | records a field end |
| LegacyParsers.FormParser.OnEnd | Vank/utils/parsers.py:178-180 | records the end |
| LegacyParsers.FormParser.Run | Vank/utils/parsers.py:182-202 | the form is built from the items the event fold collects |
| LegacyRequest.ParseHeaderPlain | Vank/core/http/request.py:37-45 | a CONTENT_TYPE without `;` has no parameters and is its own stripped content type |
| LegacyRequest.CookiePairSkipped | Vank/core/http/request.py:139-146 | a cookie piece adds nothing exactly when it is empty or a lone `=` |
| LegacyRequest.CookiePairsShape | Vank/core/http/request.py:139-146 | at most one pair per piece, and every cookie name is already stripped |
| LegacyRequest.ParamPairFails | Vank/core/http/request.py:126-129 | a query item fails exactly when it holds more than one `=`, and then with ValueError from the unpacking |
| LegacyRequest.ParamPairsFail | Vank/core/http/request.py:126-130 | the query fails exactly when one of its items does |
| LegacyRequest.ParamPrefixErr | Vank/core/http/request.py:126-130 | once a prefix of the items fails, the whole query fails with that same error |
| LegacyRequest.CookiesLastWins | Vank/core/http/request.py:138-148 | the cookie dict holds exactly the names of the assigned pairs, each with the last value given for it |
| LegacyRequest.BaseRequest.constructor | Vank/core/http/request.py:17-20 | the request keeps its environ |
| LegacyRequest.BaseRequest.Charset | Vank/core/http/request.py:90-96 | the `charset` content parameter, and utf-8 without one |
| LegacyRequest.BaseRequest.ContentLength | Vank/core/http/request.py:98-108 | the integer CONTENT_LENGTH, and 0 when it is missing or not an integer |
| LegacyRequest.BaseRequest.Method | Vank/core/http/request.py:110-116 | the upper-cased REQUEST_METHOD, and AttributeError exactly when it is missing |
| LegacyRequest.BaseRequest.FilesOf | Vank/core/http/request.py:68-88 | `{}` unless POST; for multipart the parser's error or None; None for url-encoded; `{}` otherwise; None only for those two types |
| LegacyRequest.BaseRequest.Param | Vank/core/http/request.py:118-130 | the first failing item's error, or else the dict of the unquoted pairs in query order |
| LegacyRequest.BaseRequest.Cookies | Vank/core/http/request.py:132-148 | the dict of the cookie pairs in header order |
| LegacySignal.EmissionSpec | Vank/utils/signal.py:35-40 | an emission succeeds exactly when every listener call does, and then lists one (identity, listener, result) triple per binding in binding order; a failure is the error of the first failing listener |
| LegacySignal.EmissionErrSticks | Vank/utils/signal.py:37-40 | once a listener raises, the listeners after it are never called and the emission fails with that error |
| LegacySignal.EmissionSnoc | Vank/utils/signal.py:37-40 | emitting one more binding calls its listener after the earlier ones and appends its triple |
| LegacySignal.Signal.constructor | Vank/utils/signal.py:11-13 | no bindings |
| LegacySignal.Signal.Bind | Vank/utils/signal.py:15-24 | the identity is the given one or the listener's id; it now maps to the listener, a new identity goes last and a rebound one keeps its place |
| LegacySignal.Signal.Unbind | Vank/utils/signal.py:26-33 | KeyError exactly for an unbound identity, leaving the bindings unchanged; otherwise exactly that binding is removed and the order of the others kept |
| LegacySignal.Signal.Emit | Vank/utils/signal.py:35-40 | the result is the emission over the bindings in their order |
| VankCore.Raise | vank/core/exceptions.py:5-32 | a raised framework exception is an `Exception`, an instance of its own class, with no allowed methods |
| VankCore.MethodNotAllowed | vank/core/exceptions.py:15-18 | a MethodNotAllowedException is an `Exception` that keeps the allowed methods it was given |
| VankCors.OrStar | vank/middleware/cors.py:11-13 | an unset or empty configured list becomes `['*']`; a non-empty one is kept |
| VankCors.Methods | vank/middleware/cors.py:25-26 | a `*` in the methods stands for the seven standard methods; otherwise the configured list is kept |
| VankCors.Configure | vank/middleware/cors.py:15-39 | all origins are allowed exactly when the origins list holds `*`, and all headers exactly when the headers list does |
| VankCors.FixedHeadersSpec | vank/middleware/cors.py:17-39 | the fixed response headers are the ones added in order: Allow-Origin `*` when all origins are allowed, Allow-Methods, Allow-Headers when restricted, Allow-Credentials when set, and Max-Age |
| VankCors.NamesDistinct | vank/middleware/cors.py:21-38 | the five header names are pairwise different, so no insertion overwrites another |
| VankCors.FixedHeadersLookup | vank/middleware/cors.py:17-39 | each fixed header is present exactly under its condition and holds its value |
| VankCors.BaseHeadersSpec | vank/middleware/cors.py:15-39 | the headers built from the configuration: `*` origin iff all origins, methods joined by `, `, headers joined by `, ` iff restricted, `true` credentials iff enabled, and the max age in decimal |
| VankCors.PreflightAnswerSpec | vank/middleware/cors.py:55-83 | 200 `OK` exactly when the origin, the requested method and every requested header are accepted, else 400 with an empty body; an accepted origin is echoed, fully listed requested headers are echoed, and every other header is the fixed one |
| VankCors.HeadersListedJoin | vank/middleware/cors.py:71-80 | a comma-joined header request is accepted exactly when each name, stripped and lower-cased, is configured |
| VankCors.WildcardAcceptsStandard | vank/middleware/cors.py:11-13 | with nothing configured, every preflight for a standard method is answered 200, echoing the origin |
| VankCors.SimpleCorsRequestRaises | vank/middleware/cors.py:46-58 | an ordinary GET carrying Origin makes the written test raise AttributeError |
| VankCors.PreflightTestNarrows | vank/middleware/cors.py:46-53 | the intended test answers exactly the preflight requests, which the written one answers too; the written one differs only on requests that are not preflights |
| VankCors.CorsMiddleware.constructor | vank/middleware/cors.py:15-39 | the middleware's settings are the configuration's |
| VankCors.CorsMiddleware.HandlePreflight | vank/middleware/cors.py:55-83 | the answer is the preflight answer for the request's origin, method and requested headers |
| VankCors.CorsMiddleware.HandleRequest | vank/middleware/cors.py:41-53 | the request passes through exactly when it is not a preflight; a preflight gets the preflight answer for its headers, with no requested headers read as empty |
| VankDatastructures.Append | vank/utils/datastructures.py:78-86 | a missing key fails with KeyError exactly when `error` is set; otherwise the key's list (empty when it was missing) gains the value at its end and no other key changes |
| VankDatastructures.AppendSecondValueFails | vank/utils/datastructures.py:80-86 | appending to a key that already holds a value raises AttributeError as written, where the intended append extends its list |
| VankDatastructures.AppendAgreesOnFirstValue | vank/utils/datastructures.py:78-86 | on a missing key or an empty list the written and intended appends agree |
| VankDatastructures.AppendAllSpec | vank/utils/datastructures.py:78-86 | appending a run of pairs gives each key its old values followed by its new values in order, and no other key |
| VankDatastructures.AppendAllSnoc | vank/utils/datastructures.py:78-86 | appending one more pair is one more non-failing append |
| VankDatastructures.MultiValueDict.constructor | vank/utils/datastructures.py:39 | an empty dict |
| VankDatastructures.MultiValueDict.Get | vank/utils/datastructures.py:41-43 | the last value of a non-empty list, the default otherwise |
| VankDatastructures.MultiValueDict.GetItem | vank/utils/datastructures.py:91-96 | KeyError exactly for a missing key; the last value of a non-empty list, and the empty list itself otherwise |
| VankDatastructures.MultiValueDict.GetAll | vank/utils/datastructures.py:56-64 | the key's whole list passed through `t_class`, and the default for a missing key |
| VankDatastructures.MultiValueDict.SetItem | vank/utils/datastructures.py:88-89 | the key now holds exactly the one value; nothing else changes |
| VankDatastructures.MultiValueDict.SetList | vank/utils/datastructures.py:69-76 | the key now holds exactly the given list; nothing else changes |
| VankDatastructures.MultiValueDict.AppendValue | vank/utils/datastructures.py:78-86 | the dict becomes the intended append's result, or stays unchanged and reports KeyError |
| VankDatastructures.MultiValueDict.Copy | vank/utils/datastructures.py:66-67 | a fresh dict holding the same lists |
| VankDatastructures.ClosedByClose | vank/utils/datastructures.py:107-108 | `close` closes exactly the upload files that are the last value of some key |
| VankDatastructures.FirstMatch | vank/utils/datastructures.py:125-144 | the value of the first header whose name matches ignoring case, and none exactly when no name matches |
| VankDatastructures.Rewritten | vank/utils/datastructures.py:155-157 | every header whose name matches is replaced by the new pair, the others stay in place |
| VankDatastructures.UpdatedSpec | vank/utils/datastructures.py:154-159 | matching headers are rewritten in place, and the pair is appended exactly when no header matched or the key is empty |
| VankDatastructures.Removed | vank/utils/datastructures.py:161-165 | the intended removal keeps exactly the headers whose name does not match |
| VankDatastructures.RemoveShiftedPops | vank/utils/datastructures.py:163-165 | with two matching headers the written loop pops the wrong one and keeps another; with two at the end it raises IndexError after the first pop, which stays done (`a: 1`, `A: 2` is left as `A: 2`) |
| VankDatastructures.RemoveSingleMatch | vank/utils/datastructures.py:161-165 | with one matching header the written and intended removals both drop exactly it |
| VankDatastructures.NoMatchFrom | vank/utils/datastructures.py:163-165 | the written loop skips non-matching headers and pops the first match at its shifted index |
| VankDatastructures.NoMatchAfter | vank/utils/datastructures.py:163-165 | with no match left the written loop leaves the list as it is |
| VankDatastructures.RemovedSingle | vank/utils/datastructures.py:161-165 | the intended removal of a single match drops exactly that header |
| VankDatastructures.NoneRemoved | vank/utils/datastructures.py:161-165 | the intended removal of an absent name changes nothing |
| VankDatastructures.Headers.constructor | vank/utils/datastructures.py:117-120 | the headers are the raw pairs in order |
| VankDatastructures.Headers.GetItem | vank/utils/datastructures.py:125-129 | KeyError exactly when no name matches ignoring case; otherwise the first match's value |
| VankDatastructures.Headers.Get | vank/utils/datastructures.py:140-144 | the loop returns the first match's value, or the default |
| VankDatastructures.Headers.Contains | vank/utils/datastructures.py:167-169 | a non-empty name is contained exactly when some header matches it |
| VankDatastructures.Headers.Add | vank/utils/datastructures.py:146-147 | the pair is appended |
| VankDatastructures.Headers.SetDefault | vank/utils/datastructures.py:149-152 | the pair is appended exactly when the name is not contained; otherwise nothing changes |
| VankDatastructures.Headers.Update | vank/utils/datastructures.py:154-159 | the headers become the update of the old list |
| VankDatastructures.Headers.Remove | vank/utils/datastructures.py:161-165 | the headers become what the written loop leaves, pops done before an IndexError included, and the error is the loop's |
| VankDatastructures.FirstIsFirst | vank/utils/datastructures.py:140-144 | the first matching header decides the lookup |
| VankDatastructures.PresentMatch | vank/utils/datastructures.py:167-169 | for a non-empty name, containment and a successful lookup agree |
| VankDatastructures.FirstMatchSnoc | vank/utils/datastructures.py:146-147 | adding a header never changes an existing lookup, and answers one that had no match when its name matches |
| VankDatastructures.Session.constructor | vank/utils/datastructures.py:179-181 | the session holds the initial entries and is unchanged |
| VankDatastructures.Session.GetItem | vank/utils/datastructures.py:183-186 | the stored value, and KeyError exactly for a missing key |
| VankDatastructures.Session.Get | vank/utils/datastructures.py:202-203 | the stored value, and none for a missing key |
| VankDatastructures.Session.Truthy | vank/utils/datastructures.py:199-200 | true exactly when the session holds an entry |
| VankDatastructures.Session.SetItem | vank/utils/datastructures.py:195-197 | the key maps to the value and the session is marked changed |
| VankDatastructures.Session.DelItem | vank/utils/datastructures.py:188-193 | a present key is removed and the session marked changed; a missing one raises KeyError and changes nothing |
| VankDatastructures.Session.Pop | vank/utils/datastructures.py:218-224 | a present key's value is returned and the key removed, marking a change; a missing key gives the default and changes nothing |
| VankDatastructures.Session.SetDefault | vank/utils/datastructures.py:226-232 | a present key's value is returned unchanged; a missing key gets the value, marking a change |
| VankDatastructures.Session.Update | vank/utils/datastructures.py:234-236 | the other entries override and the session is marked changed |
| VankDatastructures.Session.Clear | vank/utils/datastructures.py:238-240 | the session is empty and marked changed |
| VankLoadModule.DropFinalNewline | vank/utils/load_module.py:8 | `$` matches at the very end or before one final newline |
| VankLoadModule.MatchPath | vank/utils/load_module.py:8 | a match yields a dotted module path of identifier segments and, after `:`, an attribute of word characters, which together make up the whole text up to an optional final newline |
| VankLoadModule.JoinPathChars | vank/utils/load_module.py:8 | dot-joined segments use only the characters the module group allows |
| VankLoadModule.JoinedNames | vank/utils/load_module.py:8 | dot-joined identifier segments form a module path free of `:` and newlines |
| VankLoadModule.RenderMatches | vank/utils/load_module.py:8 | every path written as segments with an optional `:attr` is matched and split back into exactly those parts |
| VankLoadModule.ModuleMatches | vank/utils/load_module.py:8 | a module path alone matches with no attribute |
| VankLoadModule.AttrMatches | vank/utils/load_module.py:8 | a module path with `:attr` matches with that attribute |
| VankLoadModule.BadGrammarRejected | vank/utils/load_module.py:8 | every path of the bad-grammar family is refused: a module part with an empty first or last name, a colon without an attribute, or an attribute holding a dot |
| VankLoadModule.RejectedPaths | tests/test_utils/test_import_from_str.py:7-21 | every path of the bad-grammar test is refused |
| VankLoadModule.AttrWithDotRejected | vank/utils/load_module.py:8 | any text whose part after the first colon holds a dot is refused, whatever the module part |
| VankLoadModule.EmptySegmentRejected | vank/utils/load_module.py:8 | a colon-free path that starts or ends with a dot is refused: it has an empty module name |
| VankLoadModule.EmptySegmentWithAttrRejected | vank/utils/load_module.py:8 | a module part that starts or ends with a dot is refused whatever attribute follows its colon |
| VankLoadModule.ColonWithoutAttrRejected | vank/utils/load_module.py:8 | a colon with nothing after it is refused, whatever the module part |
| VankLoadModule.NoTrailingSegment | vank/utils/load_module.py:8 | no module path ends with a dot |
| VankLoadModule.NoLeadingSegment | vank/utils/load_module.py:8 | no module path starts with a dot |
| VankLoadModule.ImportFromStr | vank/utils/load_module.py:11-30 | ValueError exactly when the text does not match; ImportError exactly when the module is unknown or lacks the attribute; otherwise the module, or the attribute's value when one is named |
| VankLoadModule.ImportRendered | tests/test_utils/test_import_from_str.py:23-28 | a well-formed path imports its module or attribute, and fails with ImportError for an unknown module or attribute |
| VankLoadModule.FinalNewlineIgnored | vank/utils/load_module.py:8 | one final newline never changes the match |
| VankParsers.TextKeyed | vank/core/http/request.py:42 | the content parameters reach the parser keyed by text, every parameter under its own name |
| VankParsers.BoundaryNeverFound | vank/utils/parsers.py:20 | looking up the bytes key `b'boundary'` among text keys always raises KeyError |
| VankParsers.Boundary | vank/utils/parsers.py:19-22 | the intended lookup fails exactly when no boundary parameter is given, and otherwise yields its encoding |
| VankParsers.HeaderDict | vank/utils/parsers.py:31 | a header line without `: ` fails the unpacking |
| VankParsers.ParamDict | vank/utils/parsers.py:33-35 | a disposition parameter without exactly one `=` fails the unpacking |
| VankParsers.ParsePartSpec | vank/utils/parsers.py:29-50 | a part is accepted exactly when its head reads and it has a `name`, ParseException when the name is missing; it is a file exactly with `filename`, holding the content, and otherwise the decoded content |
| VankParsers.DispositionHeader | vank/utils/parsers.py:31 | a client's disposition line reads back as the one Content-Disposition header |
| VankParsers.DispositionParams | vank/utils/parsers.py:32-35 | its value splits into `form-data` and the `name` parameter with the quotes stripped |
| VankParsers.BlankLineAfter | vank/utils/parsers.py:29 | the head ends at the blank line after the disposition line |
| VankParsers.ValueTrim | vank/utils/parsers.py:30 | stripping CR and LF gives back a value that neither starts nor ends with one |
| VankParsers.ReadField | vank/utils/parsers.py:29-35 | a client-built part reads as its disposition header, its name and its stripped body |
| VankParsers.TextPartRoundTrip | vank/utils/parsers.py:29-50 | a text field built as a client builds it parses back to its decoded name and value |
| VankParsers.Parts | vank/utils/parsers.py:26-27 | the parts are the pieces between the first and the last delimiter |
| VankParsers.ParseAll | vank/utils/parsers.py:28-51 | on success, one field per part |
| VankParsers.ParseAllOk | vank/utils/parsers.py:28-51 | parsing succeeds exactly when every part does, each field being its part's |
| VankParsers.ParseAllErr | vank/utils/parsers.py:28-51 | a failure is the error of the first failing part |
| VankParsers.ParseAllErrSticky | vank/utils/parsers.py:28-51 | once a prefix fails, the whole parse fails with that error |
| VankParsers.FieldsSpec | vank/utils/parsers.py:28-51 | the form's fields are those of all parts in order, or the first part's error |
| VankParsers.FieldsSnoc | vank/utils/parsers.py:28-51 | one more part adds its field at the end or fails with its error |
| VankParsers.RepeatedNamesAccumulate | vank/utils/parsers.py:51 | with the intended append, a repeated field name keeps all its values in order |
| VankParsers.MultiPartFormParser.constructor | vank/utils/parsers.py:19-22 | the parser keeps its boundary, body and charset |
| VankParsers.MultiPartFormParser.Run | vank/utils/parsers.py:24-52 | with the corrected boundary lookup and `append_value` (Findings rows for parsers.py:20 and datastructures.py:78-86): the first part's error, or a fresh form holding every field appended in order |
| VankParsers.NewMultiPartFormParser | vank/utils/parsers.py:19-22 | with the corrected boundary lookup (Findings row for parsers.py:20): construction fails exactly without a boundary, and otherwise holds the encoded boundary, the body and the codec |
| VankParsers.TextPairs | vank/utils/parsers.py:61-62 | each query pair becomes a text field of the same name |
| VankParsers.FormParser.constructor | vank/utils/parsers.py:56-57 | the parser keeps its stream |
| VankParsers.FormParser.Run | vank/utils/parsers.py:59-63 | with the corrected `append_value` (Findings row for datastructures.py:78-86): a fresh form holding the latin-1 decoded query pairs appended in order |
| VankRequest.HeaderOf | vank/core/http/request.py:203-211 | an environ entry is a header exactly when its name starts with `HTTP_` or is CONTENT_TYPE or CONTENT_LENGTH, and keeps its value |
| VankRequest.ParseHeaders | vank/core/http/request.py:197-211 | at most one header per environ entry |
| VankRequest.HttpPrefixRemoved | vank/core/http/request.py:205-206 | an `HTTP_` entry becomes a header named by the rest of its name |
| VankRequest.ParseHeadersAppend | vank/core/http/request.py:203-211 | the headers of consecutive environ runs are the headers of each run, in order |
| VankRequest.ParseHeadersOne | vank/core/http/request.py:203-211 | one entry yields its header or nothing |
| VankRequest.ParseHeadersAround | vank/core/http/request.py:207-208 | a CONTENT_LENGTH entry is kept as it is, in place |
| VankRequest.FirstMatchAfter | vank/core/http/request.py:120 | the first header with a given name supplies the lookup |
| VankRequest.ContentLengthOf | vank/core/http/request.py:119-126 | the integer value of the first CONTENT_LENGTH header, and 0 when it is missing or not an integer |
| VankRequest.ContentLengthRoundTrip | vank/core/http/request.py:119-126 | a CONTENT_LENGTH written in decimal in the environ is read back as that number |
| VankRequest.Read | vank/core/http/request.py:71 | reading `n` bytes gives the first `n` bytes of the input, or all of it when there are fewer or `n` is negative |
| VankRequest.EnvGet | vank/core/http/request.py:135 | the environ value under the key, and none exactly when the key is absent |
| VankRequest.MethodOf | vank/core/http/request.py:128-137 | the upper-cased REQUEST_METHOD, and an error exactly when it is missing |
| VankRequest.Forwarded | vank/core/http/request.py:180-181 | the forwarded addresses are stripped of every `str.isspace` character (U+001C to U+001F, U+0085, U+00A0 and the other Unicode spaces included) and non-empty, no more than the pieces |
| VankRequest.RemoteAddressSpec | vank/core/http/request.py:167-189 | with no proxies the last forwarded address; with `n` proxies the address `n` places before the last; otherwise the X_REMOTE_ADDR header or the environ's REMOTE_ADDR |
| VankRequest.ForwardedDropsBlank | vank/core/http/request.py:181 | pieces made only of whitespace, as `str.isspace` has it, are all dropped |
| VankRequest.ForwardedSeparatorDropped | vank/core/http/request.py:180-181 | an X-Forwarded-For of one U+001C gives no address |
| Text.StripEmpty | vank/core/http/request.py:181 | `strip()` gives the empty text exactly when every character is whitespace |
| VankRequest.ForwardedKeeps | vank/core/http/request.py:181 | stripped non-empty addresses all survive the filter |
| VankRequest.ForwardedRoundTrip | vank/core/http/request.py:180-181 | comma-joined addresses are read back exactly |
| VankRequest.FormContents | vank/core/http/request.py:85-101 | with the corrected boundary lookup and `append_value`: multipart: a missing boundary or the first bad part's error, else every field appended in order; url-encoded: the query pairs appended in order; any other type: an empty form |
| VankRequest.UrlencodedValues | vank/core/http/request.py:95-97 | with the corrected `append_value`: a url-encoded form holds for each name all its values in order, and only names that occur |
| VankRequest.ParseForm | vank/core/http/request.py:91-99 | with the corrected boundary lookup and `append_value`: a fresh form with exactly the form contents, or their error |
| VankRequest.Request.constructor | vank/core/http/request.py:11-22 | the request keeps its environ and input and has nothing cached |
| VankRequest.Request.Headers | vank/core/http/request.py:24-28 | the headers are built from the environ once and the same object is returned afterwards; nothing else changes |
| VankRequest.Request.Method | vank/core/http/request.py:128-137 | a cached method is returned; otherwise the environ's method, cached on success |
| VankRequest.Request.ContentLength | vank/core/http/request.py:113-126 | the cached length, or the headers' length which is then cached |
| VankRequest.Request.Form | vank/core/http/request.py:85-101 | with the corrected boundary lookup and `append_value`: a cached form is returned; otherwise the form contents of the first content-length bytes, cached on success, or their error with no cache |
| VankRequest.Request.LoadForm | vank/core/http/request.py:91-100 | with the corrected boundary lookup and `append_value`: a fresh form holding the contents is cached, or the error is returned and the cache kept |
| VankRequest.Request.Close | vank/core/http/request.py:163-165 | with a form, exactly its files reached by `close` are closed; without one nothing changes |
| VankRequest.Request.RemoteAddr | vank/core/http/request.py:167-189 | the remote address of the request's headers and environ |
| VankResponse.DefaultStatus | vank/core/http/response.py:14-15 | every response class's default status is a valid HTTP status |
| VankResponse.DefaultMediaType | vank/core/http/response.py:16 | every response class has a non-empty default media type |
| VankResponse.ErrorKindsDefaults | vank/core/http/response.py:249-280 | BadRequest defaults to 400, NotFound to 404, MethodNotAllowed to 405, and every non-200 class is plain text |
| VankResponse.StatusOr | vank/core/http/response.py:26 | a given non-zero status wins over the class default |
| VankResponse.TextOr | vank/core/http/response.py:27 | a given non-empty media type wins over the class default |
| VankResponse.Encoded | vank/core/http/response.py:28-31 | no or empty content gives an empty body, bytes are kept, text is encoded with the charset |
| VankResponse.ContentTypeValue | vank/core/http/response.py:45-48 | the charset is appended exactly to a `text/` media type that does not already name one |
| VankResponse.NamesDiffer | vank/core/http/response.py:45-53 | Content-Type, Content-Length, Allow and Location are different names ignoring case |
| VankResponse.OtherAppended | vank/core/http/response.py:49-53 | adding a header of another name never changes a lookup |
| VankResponse.MissingAppended | vank/core/http/response.py:49-53 | adding a missing header makes it found with its value |
| VankResponse.TypedSpec | vank/core/http/response.py:40-49 | the given headers stay first, and Content-Type is the given one or else the derived one |
| VankResponse.DerivePrefix | vank/core/http/response.py:40-53 | the derived headers begin with the given ones |
| VankResponse.DeriveType | vank/core/http/response.py:45-49 | the Content-Type found is the given one, or the computed one when none is given |
| VankResponse.DeriveLength | vank/core/http/response.py:51-53 | the Content-Length found is the given one, or the computed one when the body counts, or none |
| VankResponse.LengthAppended | vank/core/http/response.py:51-53 | appending Content-Length keeps the Content-Type lookup and answers the length |
| VankResponse.DerivedOther | vank/core/http/response.py:40-53 | every other header name is looked up exactly as in the given headers |
| VankResponse.DerivedHeadersSpec | vank/core/http/response.py:37-54 | the given headers stay in order first; Content-Type is the given one or the media type with the charset; Content-Length is the given one, else the body length for a non-empty body with status 200 or more other than 204 and 304, else absent |
| VankResponse.Response.constructor | vank/core/http/response.py:19-31 | the response holds the given or default status and media type, the encoded content and the raw headers, with no headers built |
| VankResponse.Response.Headers | vank/core/http/response.py:37-54 | the headers are derived once and the same object is returned afterwards |
| VankResponse.AllowHeadersSpec | vank/core/http/response.py:268-276 | Allow is the given one or the comma-joined methods, and Content-Length is only what was given |
| VankResponse.NewMethodNotAllowed | vank/core/http/response.py:265-276 | a fresh empty-bodied 405 (unless another status is given) whose headers gain the comma-joined allowed methods by `setdefault` |
| VankResponse.AddAllow | vank/core/http/response.py:276 | the headers become the old ones with Allow set by default |
| VankResponse.RedirectStatus | vank/core/http/response.py:287-302 | the intended redirect status is 301 when permanent, 302 otherwise, unless a status is given |
| VankResponse.RedirectSentAs200 | vank/core/http/response.py:287-302 | without a given status the written redirect is sent as 200, while only its unused `status_code` holds the intended 3xx |
| VankResponse.NewRedirect | vank/core/http/response.py:290-302 | a fresh response with the intended redirect status whose Location is the given one or the quoted URL |
| VankResponse.Disposition | vank/core/http/response.py:188-197 | `attachment` without a filename; otherwise attachment or inline with the plain filename when quoting leaves it unchanged, and the RFC 5987 `filename*` form otherwise |
| VankResponse.SetupFile | vank/core/http/response.py:166-199 | FileNotFoundError for a missing path, TypeError for a non-file, ValueError for a range with a status other than 206 or with bounds not `end > start >= 0`, and success otherwise |
| VankResponse.RangedHeadersSpec | vank/core/http/response.py:175-186 | a range sets Content-Range `bytes start-end/size` and Content-Length `end - start + 1`; without one Content-Length is the file size |
| VankResponse.FileHeadersSpec | vank/core/http/response.py:175-199 | on top of those, Last-Modified and Content-Disposition are set, over the caller's headers |
| VankResponse.SetupFileSpec | vank/core/http/response.py:166-200 | a successful setup has those headers, and status 206 for a range or the given status otherwise |
| VankResponse.Read | vank/core/http/response.py:211 | a read returns the next bytes, as many as asked for and available |
| VankResponse.FileResponse.constructor | vank/core/http/response.py:150-165 | the file response keeps its base response, chunk size and range |
| VankResponse.FileResponse.Iter | vank/core/http/response.py:202-223 | chunks never exceed the chunk size; with a range they concatenate to the range's bytes within the file, all non-empty and `end - start + 1` in total when the range is inside the file; without one they concatenate to the file and end with exactly one empty chunk |
| VankResponse.ReadRange | vank/core/http/response.py:204-216 | the range loop yields chunks of at most the chunk size concatenating to the range's bytes within the file |
| VankResponse.ReadAll | vank/core/http/response.py:217-223 | the whole-file loop yields the file in non-empty chunks followed by one empty chunk |
| VankResponse.ChunkSizeOr | vank/core/http/response.py:161 | a given non-zero chunk size wins, and the chunk size is always positive |
| VankResponse.NewFileResponse | vank/core/http/response.py:150-200 | construction fails with the setup's error, or gives a fresh empty-bodied response whose headers and status are the setup's |
| VankWebsocket.AllowedTypes | vank/core/http/websocket.py:23-29 | only the closed state allows no message type, and every other state allows `websocket.close` |
| VankWebsocket.ClosedAbsorbing | vank/core/http/websocket.py:142-143 | once closed, every operation fails and the socket stays closed |
| VankWebsocket.ConnectOnlyFirst | vank/core/http/websocket.py:107-115 | `connect` fails with StateException outside the initial state; there a connect message leads to connected and a disconnect closes the socket and raises WebsocketClosed |
| VankWebsocket.Transitions | vank/core/http/websocket.py:107-183 | only `accept` from connected reaches accepted, and only `close` or a received disconnect reaches closed |
| VankWebsocket.DataNeedsAccepted | vank/core/http/websocket.py:153-161 | receiving text or bytes fails outside the accepted state, and a data frame can be sent exactly when accepted |
| VankWebsocket.HappyPath | vank/core/http/websocket.py:107-183 | connect, accept, receive a text and close succeed in turn, through connected, accepted, accepted and closed, returning the text |
| VankWebsocket.WebSocket.constructor | vank/core/http/websocket.py:72-75 | a new socket is in the client-connecting state |
| VankWebsocket.WebSocket.IsClosed | vank/core/http/websocket.py:99-105 | true exactly in the closed state |
| VankWebsocket.WebSocket.Guard | vank/core/http/websocket.py:53-68 | the call is admitted exactly when the state is (or, in exclude mode, is not) one of the states, else StateException naming them and the state |
| VankWebsocket.WebSocket.Recv | vank/core/http/websocket.py:135-151 | the new state and outcome are those of the receive transition |
| VankWebsocket.WebSocket.Send | vank/core/http/websocket.py:185-201 | the outcome is that of the send transition, which never changes the state |
| VankWebsocket.WebSocket.Connect | vank/core/http/websocket.py:107-115 | the new state and outcome are those of the connect transition |
| VankWebsocket.WebSocket.Accept | vank/core/http/websocket.py:117-133 | the new state and outcome are those of the accept transition |
| VankWebsocket.WebSocket.RecvText | vank/core/http/websocket.py:153-156 | the new state and outcome are those of the text-receive transition |
| VankWebsocket.WebSocket.RecvBytes | vank/core/http/websocket.py:158-161 | the new state and outcome are those of the bytes-receive transition |
| VankWebsocket.WebSocket.Close | vank/core/http/websocket.py:168-183 | the new state and outcome are those of the close transition |
| VankWsgi.Merged | vank/core/application/wsgi.py:48-49 | the keyword arguments updated with the converted captures: both key sets, the captures winning |
| VankWsgi.Finalize | vank/core/application/wsgi.py:32-56 | no route raises NotFoundException, a refused method raises MethodNotAllowedException with the route's methods, and a success is always a response from a matched route whose method is allowed and whose captures all have converters |
| VankWsgi.FinalizeCallsCallback | vank/core/application/wsgi.py:48-56 | the callback gets every capture converted by its converter, and its response or error is the outcome, a non-response raising NoResponseException |
| VankWsgi.UnknownCaptureRaises | vank/core/application/wsgi.py:48 | a capture without a converter raises KeyError |
| VankWsgi.CapturesOverrideKeywords | vank/core/application/wsgi.py:49 | keyword arguments that a capture overrides never change the outcome |
| VisapiDatastructure.Appended | visapi/datastructure.py:23-28 | appending pairs never leaves a key with an empty list |
| VisapiDatastructure.AppendedValues | visapi/datastructure.py:23-28 | after the appends each key holds its old values followed by its new values in order, and only keys that occur are present |
| VisapiDatastructure.MultiValueDict.constructor | visapi/datastructure.py:23-28 | the dict holds the positional pairs and then the keyword pairs, appended in order |
| VisapiDatastructure.MultiValueDict.Get | visapi/datastructure.py:30-37 | the first value of a present key, the default otherwise |
| VisapiDatastructure.MultiValueDict.GetItem | visapi/datastructure.py:68-73 | the first value of a present key, KeyError exactly for a missing one |
| VisapiDatastructure.MultiValueDict.GetList | visapi/datastructure.py:39-46 | the whole list of a present key, the empty list otherwise |
| VisapiDatastructure.MultiValueDict.AppendValue | visapi/datastructure.py:48-63 | a present key's list gains the value; a missing key raises when `error` is set and changes nothing, else gets a one-value list; lists stay non-empty |
| VisapiDatastructure.MultiValueDict.SetItem | visapi/datastructure.py:65-66 | the key holds exactly the one value and no list becomes empty |
| VisapiDatastructure.FirstValueWins | visapi/datastructure.py:30-37 | the value a lookup returns is the first one given for the key |
| VisapiDatastructure.ValuesForFirst | visapi/datastructure.py:23-28 | the first value collected for a key is the first one given |
| VisapiDatastructure.ValuesForNone | visapi/datastructure.py:23-28 | a key never given collects nothing |
| VisapiError.Ancestry | visapi/helpers/error.py:23 | the classes searched are the exception's MRO without its last entry, `object` |
| VisapiError.FirstHandled | visapi/helpers/error.py:23-25 | the first class of the search order that has a handler, and none exactly when no class has one |
| VisapiError.Handle | visapi/helpers/error.py:21-29 | an unhandled exception is returned by the default unchanged |
| VisapiError.HandleMostSpecific | visapi/helpers/error.py:23-25 | the handler of the most specific registered class answers |
| VisapiError.ObjectHandlerIgnored | visapi/helpers/error.py:22-26 | with no handler for any class but `object`, the exception is returned unchanged |
| VisapiError.ErrorHandler.constructor | visapi/helpers/error.py:6-8 | no handlers |
| VisapiError.ErrorHandler.AddErrorHandler | visapi/helpers/error.py:10-13 | a class whose handler is still alive raises ValueError and changes nothing; otherwise the handler is stored in the `WeakValueDictionary` and its entry stays only when something else references the handler |
| VisapiError.RegisterSpec | visapi/helpers/error.py:8-13 | registration refuses exactly a class with a live handler, changing nothing; otherwise only that class's entry can change: a handler referenced elsewhere answers its class's exceptions, one referenced nowhere else leaves the registry as it was |
| VisapiError.DecoratedHandlerLost | visapi/helpers/error.py:15-19 | a handler registered only through the decorator as written never answers: its class's exceptions are still returned unchanged; with the decorator returning the handler, it answers them |
| VisapiError.ErrorHandler.OnError | visapi/helpers/error.py:15-19 | as written the decorator registers through `add_error_handler` and binds the decorated name to None, so a handler referenced nowhere else leaves no entry |
| VisapiError.ErrorHandler.Collect | visapi/helpers/error.py:8 | when the last other reference to a class's handler goes, its weak entry disappears, and a later registration for that class is no longer a duplicate |
| VisapiError.RegisteredOwnClassAnswers | visapi/helpers/error.py:21-25 | a handler whose entry for the exception's own class is live answers it |
| VankConfig.BaseSettings | vank/core/config/base.py:6-18 | the defaults define exactly the project directory, secret, converters, middlewares, error handler and logging settings |
| VankConfig.Attr | vank/core/config/base.py:24 | a missing attribute reads as None |
| VankConfig.CheckSecretKey | vank/core/config/base.py:21-30 | passes exactly for a str longer than 15 characters; any other type, None included, raises naming the type; a short str raises the length error |
| VankConfig.CheckStaticUrl | vank/core/config/base.py:33-42 | any non-str, None included, raises naming the type; a str passes exactly when it starts or ends with `/` |
| VankConfig.DefaultsRejected | vank/core/config/base.py:6-42 | a project that sets no secret fails the secret check with the empty default, and one that sets no static URL fails the static check as NoneType |
| VankConfig.OverrideDecides | vank/core/config/base.py:6-30 | a project's own secret decides the secret check over the default |
| VankConfig.SecretBoundary | vank/core/config/base.py:27-30 | a missing secret fails as NoneType; a secret passes exactly from 16 characters on |
| VisapiHttp.FieldOfSpec | visapi/helpers/http.py:32-70 | a part with a malformed head fails as the head does; a part without `name` raises ParseException; otherwise the name is decoded with the `charset` parameter (UTF-8 by default), the value is a file exactly when `filename` is present, holding the content, and text decoded as UTF-8 otherwise |
| VisapiHttp.TextPartParsed | visapi/helpers/http.py:31-69 | a text part built the way a client builds it parses back to its name and value |
| VisapiHttp.FieldReadsBack | visapi/helpers/http.py:32-69 | a field's value is its body with CR and LF stripped from both ends |
| VisapiHttp.NextPart | visapi/helpers/http.py:23-31 | a cut leaves a strictly shorter buffer that starts at the second boundary |
| VisapiHttp.NextPartExtend | visapi/helpers/http.py:18-31 | bytes arriving later do not change a cut already possible |
| VisapiHttp.SegmentsStep | visapi/helpers/http.py:22-75 | the parts of a buffer are its first cut followed by the parts of the remaining buffer, whatever arrives later |
| VisapiHttp.SegmentsAround | visapi/helpers/http.py:23-31 | a part enclosed by two boundaries, with no boundary inside, is cut out exactly |
| VisapiHttp.ParsePartsSpec | visapi/helpers/http.py:22-70 | the parts parse exactly when each one does, giving one field per part in order; a failure is the error of the first failing part |
| VisapiHttp.ParsePartsSticky | visapi/helpers/http.py:40-43 | once a part fails, later parts do not change the outcome |
| VisapiHttp.StreamValues | visapi/helpers/http.py:17-76 | a name is in the form exactly when some part gives it, and holds every value given for it, in stream order |
| VisapiHttp.MultiPartFormParser.constructor | visapi/helpers/http.py:10-12 | the parser keeps the body and the boundary |
| VisapiHttp.MultiPartFormParser.Parse | visapi/helpers/http.py:14-76 | with the corrected cut at the `--boundary` delimiter (Findings row for visapi/helpers/http.py:23-33; as written each value keeps CR LF `--`): the form built chunk by chunk equals the form of the joined chunks cut at the delimiter, and fails exactly when that does, with the same error; no name is left with an empty list |
| VisapiHttp.NewMultiPartFormParser | visapi/helpers/http.py:12 | a bytes boundary is kept as given; a text boundary is encoded as Latin-1 and fails exactly when it cannot be |
| VisapiHttp.BareBoundaryKeepsDashes | visapi/helpers/http.py:23-33 | cut at the bare boundary, a field's value keeps CR LF and the `--` of the next delimiter |
| VisapiHttp.DashedFieldParsed | visapi/helpers/http.py:32-69 | a text part followed by `--` parses to its value with CR LF `--` appended |
| VisapiHttp.DelimiterGivesField | visapi/helpers/http.py:23-33 | cut at the `--boundary` delimiter, a field's part is exactly the field, and it parses back to its name and value |

## Left out

- Asynchronous code: `async`/`await`, ASGI `receive`/`send` and `ahandle` are modelled as sequential steps, with a coroutine function recorded only as a flag on the callable.
- I/O and the runtime: the WSGI server (`make_server`, the reloader), `start_response`, context variables, logging, `atexit` and the WSGI application's `__call__`/`_finish_response`/start sequence are not modelled; the route match a WSGI call starts from is an input.
- Signals: `call` stands for invoking a listener with its arguments; what a listener does is outside the model.
- Character codecs, `urllib` quoting and unquoting, `parse_qsl`, `json.dumps`/`json.loads`, `mimetypes.guess_type`, `formatdate` and the file system are parameters; decode and encode errors other than the Latin-1 check of a text boundary are not modelled.
- Legacy converters: `FloatConverter` and `EmailConverter` are not modelled (their patterns need floating point and an e-mail grammar); the visapi `DateConvertor` and `FloatConvertor.to_url` are left out for the same reason.
- Callables: signatures are inspected for plain functions only; bound methods and classes are not distinguished.
- LegacyDatastructures.UploadFile: operations on a closed file (ValueError in Python) are not modelled; the middle generation's `SpooledUploadFile` is the same class and is modelled once here.
- The `WeakValueDictionary` of view singletons is a plain map; collection of unreferenced views is not modelled.
- Headers: the Latin-1 encoding of names and values is not modelled; their case-insensitive comparison uses Text.Lower (next line).
- Text.Upper, Text.Lower: Python's `str.upper`/`str.lower` use the full Unicode case mapping, which can change a character outside ASCII or even the length (`ß` upper-cases to `SS`); the model maps only the ASCII letters and keeps every other character. This concerns VankRoute.ParseMethods and CheckMethod, LegacyRoute.CheckMethod, VankRequest.MethodOf, LegacyRequest's header parameter names and method, LegacyView's handler lookup, VankCors's header names and request method, VisapiRoute's methods and request verb, VisapiConvertor's bool and UUID texts, and the Headers name comparisons.
- ParseMethods: a method name holding a non-ASCII letter whose upper case is an ASCII letter, such as `poſt` (U+017F upper-cases to `S`), is refused with BadMethods where Python accepts it as `POST` (Text.Upper is ASCII only).
- MethodOf: a REQUEST_METHOD with non-ASCII letters keeps them (`µ` stays `µ` where Python's `upper()` gives `Μ`), because Text.Upper is ASCII only.
- VankDatastructures.MultiValueDict: dictionary iteration order and the `keys`/`items`/`values` generators are not modelled.
- Sessions: `session or {}` aliasing and the `keys`/`values`/`items`/`raw`/`is_changed` accessors are not modelled.
- `url_reflect` takes its `show` and `quote` behaviour as parameters.
- Forms: the `keys`/`values`/`items` accessors and `__str__` are not modelled.
- Responses: cookies (`add_cookie`/`delete_cookie`), status reason phrases, `__aiter__`, negative chunk sizes and `FileResponse`'s mutation of the caller's header dict are not modelled.
- Parsers: a spooled upload file is an identity plus its contents; the oldest generation's multipart tokenizer is not modelled, its events are the parser's input.
- Requests: the cached `content_type`, `params`, `charset` and `stream` properties are functions of the request; `json`, `path`, `query` and the middle generation's `cookies` are not modelled.
- LegacyRequest.ParseHeader: does not treat a `;` inside a quoted parameter value as `cgi.parse_header` does.
- VankCors: a request with Access-Control-Request-Method but no Origin passes the gate as written; what the preflight handler then does with it is not modelled beyond the gate.
- Websockets: `send` always succeeds; `receive_json`, `query` and `path` are not modelled.
- VisapiHttp: a `None` boundary, the third positional argument of `FormFile` (the disposition-parameter dict, which lands in its `content_type` attribute while the part's Content-Type lands in `headers`; the model keeps the latter as `FileValue.headers`), the rewrite of `filename*` into a dict and `FormFile.__del__` are not modelled; the chunk stream is a sequence, and `find` with slicing is modelled by splitting once at the boundary.
- VankConfig: the `AttributeError` branches cannot be reached because `getattr` is given a default, so they are not modelled; exception message texts are not modelled. The message of `check_static_url` asks for a slash at both ends while the code accepts either end; the model follows the code.
- VankLoadModule: importing has side effects in Python; the model takes the importable modules as a map.
- VisapiRouter: a duplicate route name builds a ValueError that is never raised (visapi/routing/router.py:30-32); the model follows the code and accepts the duplicate.
- View `__eq__` and `__repr__` methods are not modelled.
- NewRouteOf: `methods` is always passed; the default `List[str]` of `new_route` is a typing object, not a list, and building a route from it fails (TypeError or AttributeError, depending on the Python version), which is not modelled.
- constructor of LegacyView.MiddlewareView, and NewMiddlewareView: the error handler is taken as a callable of one exception. In the source the class attribute defaults to the setting `conf.ERROR_HANDLER`, a string, and a plain function assigned on the class binds to the view as a method, so in both cases the first exception the chain converts raises TypeError instead; only a `staticmethod` or a callable object behaves as modelled.
- Emit: `emit` holds a non-reentrant `threading.Lock` while the listeners run, so a listener that calls `emit`, `bind` or `unbind` on the same signal blocks forever; listener calls are outcomes here and cannot reach the signal, so that deadlock is not modelled.
- UploadFile: the roll-over of `SpooledTemporaryFile` to a disk file past 1 MiB is not modelled; there a negative `seek` raises OSError rather than the in-memory file's ValueError.
- DotMatchesAny: legacy templates are put into the pattern unescaped and the model gives only `.` its regular-expression meaning; the other metacharacters (`+*?()[]|^$\{}`) are literal text here, although in Python `/a+` matches `/aaa` and `/a(b` raises `re.error` when the route is compiled.
- TextRegexes: `\w` and `\d` are ASCII here, while Python's are Unicode (`[-\w]+` also admits `café`, `\d+` admits Arabic-Indic digits).
- ParseInt: `int()`'s `_` digit separators, surrounding whitespace and non-ASCII decimal digits are not modelled; the integer convertors' patterns admit only what this model's ASCII `\d` admits.
- FloatToPython: `float()` is modelled as the exact decimal value; rounding to binary64 (an integer text beyond 2^53 comes back rounded), overflow to `inf` and the sign of `-0.0` are not modelled, so FloatOfInt holds only for the exact value.
- FloatOfInt: see FloatToPython; the row's round trip is about the exact decimal, not the binary64 float Python builds.
- MountSpec: mounting records a snapshot of the group's routes, while Python keeps the live GroupRouter, so routes added to the group after `mount_group` are served under its prefix there but not in the model; Router.MountGroup has the same gap.
- AddErrorHandler: the liveness of a weak entry is an input (`keptElsewhere`, and `Collect` for a referent that goes away), not derived from reference counts; RegisteredOwnClassAnswers and OnError depend on the same flag.
- LegacyRequest.Unquoted: `cgi.parse_header`'s unescaping of `\\` and `\"` inside a quoted value is not modelled; only the surrounding quotes are removed.
- GetList: the `default` argument of `get_list` is not modelled; a truthy default is returned by Python when the key is missing, the model returns the empty list.
- NewRedirect: the `content` and `media_type` arguments of `RedirectResponse` are not modelled; the response is built with their defaults.
- VankWebsocket: a message whose `text` or `bytes` key is present with the value None is not told apart from one without the key (Python's `get` returns None for the former and the default for the latter).
- LegacyApp: keyword arguments other than `endpoint` are accepted and ignored by `Route`, so they are not modelled.

## Findings

| source | as written | input that shows it | evidently intended | confidence | as-written member | corrected member |
|---|---|---|---|---|---|---|
| Vank/core/routing/route.py:154-156 | `url_for` reads `converter.name`, which no shipped converter defines | a route `/<int:id>` and `url_for(endpoint, id=1)` raises AttributeError | build `/1` | not executed | LegacyRoute.UrlForRaises | LegacyRoute.UrlForFixedMatches |
| Vank/core/routing/router.py:69-75 | `exceptions.UrlForNotFound` is raised (Vank/core/routing/route.py:149) and caught, but Vank/core/exceptions.py defines no such class, so evaluating the name raises AttributeError and the lookup loop never gets past its first route | routes `/a` for `a` and `/b` for `b`, then `url_for("b")` raises AttributeError | `/b` | not executed | LegacyRouter.UrlForInAsWrittenFirstOnly | LegacyRouter.UrlForInSpec |
| Vank/core/routing/router.py:41-42 | MethodNotAllowedException is raised with an `allow` keyword its class does not take | a POST to a GET-only route raises TypeError | report MethodNotAllowedException with the allowed methods | not executed | LegacyRouter.MethodMismatchRaisesTypeError | LegacyRouter.MatchFirstWins |
| Vank/core/views/view.py:79-80 | `delattr` removes `handle_request` from the class itself | one middleware class with an inherited `handle_request` listed twice raises AttributeError | skip `handle_request` for each listed middleware | not executed | LegacyView.SameClassTwice | LegacyView.SetupIntendedSpec |
| vank/core/views/view.py:49-53 | the singleton slot is shared with the base class | constructing `A`, then its subclass `B`, returns `A`'s instance | one instance per class | not executed | VankView.SubclassGetsBaseInstance | VankView.OwnSlotSingleton |
| vank/utils/arguments.py:34-40 | `accept_variable_argument` tests `*args` twice | a converter `convert(**kwargs)` is refused | accept `*args` or `**kwargs` | not executed | VankApplicationBase.KeywordConverterRefused | VankApplicationBase.ConverterAcceptedWidens |
| vank/utils/datastructures.py:78-86 | `append_value` appends to the stored value, a str | a key holding one value, given a second value, raises AttributeError | the key holds both values | not executed | VankDatastructures.AppendSecondValueFails | VankDatastructures.AppendAllSpec |
| vank/utils/datastructures.py:161-165 | `remove` pops by an index taken from a copy, so indices shift after the first pop | headers `a: 1`, `a: 2`, `b: 3` with `remove("a")` leave `a: 2`; `a: 1`, `A: 2` raise IndexError | every header with the name is removed | not executed | VankDatastructures.RemoveShiftedPops | VankDatastructures.RemoveSingleMatch |
| vank/core/http/response.py:287-302 | the redirect code is stored in `status_code` while the response is sent with `status` | `RedirectResponse(url)` is sent as 200 | 301, or 302 when not permanent | not executed | VankResponse.RedirectSentAs200 | VankResponse.NewRedirect |
| vank/utils/parsers.py:20 | the boundary is looked up with the bytes key `b'boundary'` in parameters keyed by str | any `multipart/form-data; boundary=X` body raises KeyError | read the `boundary` parameter | not executed | VankParsers.BoundaryNeverFound | VankParsers.NewMultiPartFormParser |
| vank/middleware/cors.py:46-53 | the gate lets through any request with an Origin header, and the preflight handler then reads a missing Access-Control-Request-Method | a GET with `Origin: x` raises AttributeError | only OPTIONS with both headers is a preflight | not executed | VankCors.SimpleCorsRequestRaises | VankCors.PreflightTestNarrows |
| visapi/helpers/http.py:23-33 | the buffer is cut at the bare boundary instead of the delimiter `--boundary` (section 5.1.1 of RFC 2046) | boundary `X`, body `--X` CRLF `Content-Disposition: form-data; name="a"` CRLF CRLF `hello` CRLF `--X--` gives `a` = `hello` CRLF `--` | `a` = `hello` | not executed | VisapiHttp.BareBoundaryKeepsDashes | VisapiHttp.DelimiterGivesField |
| visapi/helpers/error.py:15-19 | the decorator's `inner` returns what `add_error_handler` returns, None, so the decorated handler loses its last strong reference and its `WeakValueDictionary` entry goes with it | `@on_error(E)` on a handler `h`, then an `E` raised reaches `handle_error`, which returns it unhandled | `h` answers `E` | not executed | VisapiError.DecoratedHandlerLost | VisapiError.RegisterSpec |
