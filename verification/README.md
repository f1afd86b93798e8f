# Greenhouse controller firmware: a Dafny model of its rule engine and relay logic

The firmware runs on ESP32 controllers. It reads temperature, humidity and light sensors, drives a bank of relays, and serves a small HTTP interface. Each relay slot holds a rule written in a LISP-like JSON expression language. The core modelled here is the automation rule engine, with these parts:

- **Values** (`unified_value.h`): the tagged value every expression evaluates to. A value is Float, Int, String, Void, Actuator or Error. The model covers its float and int conversions, including the strict and the two-stage string parses, and the error-aware comparison operators.
- **Older value type** (`value_types.h`): SensorValue, which the model proves is a conservative restriction of the unified value.
- **Time literals** (`time_helpers.cpp`): `"@HH:MM:SS"` read as seconds since midnight.
- **Evaluator** (`core.cpp`, processRuleCore), with two ways of resolving a call:
  - the chain of operator-name tests, with a value-reading callback as the fallback for unknown strings;
  - a function registry (`registry_functions.cpp`, `bridge_functions.cpp`) that checks argument counts and reports unknown names as FUNCTION_NOT_FOUND.
- **Rule-set driver** (processRuleSet): rule i first resets relay i to "don't care", then its numeric result drives relay i.
- **ESP32 bridge** (`bridge.cpp`, `new_bridge.cpp`): builds the registry, resolves `relay_<n>` names to the relay setter, and runs the stored rules over the global relay table.
- **Legacy evaluator** (`rule_core.cpp`): the earlier float-only evaluator. The model proves where it agrees with the newer one and where the two part ways.

Smaller cores:

- the relay-table routes of the web server (`servers.cpp`): add a relay, remove one, GPIO options, relay codes, rules and labels;
- the hand-written JSON writer (`json.cpp`);
- the wrap-around interval timer;
- the Celsius-to-Fahrenheit conversion with its missing-reading sentinel;
- the GPIO allow-list;
- the light-schedule arithmetic and the `HH:MM` text of the propagation box.

Conventions throughout the model:

- A rule evaluates to an `Outcome`: the value together with the sequence of setter calls made on the way.
- The relay table is an `array<int>` of two-digit codes. The tens digit is the automatic state and the ones digit the manual override.
- Floats are `real`. C's truncating `/` and `%`, the truncation toward zero of `static_cast<int>` and 32-bit `unsigned long` wrap-around are written out explicitly. The int range is not: see "Left out".

## Model

| member | source | states |
|---|---|---|
| Values.CreateVoid | Sunroom2/src/automation_dsl/unified_value.h:384-389 | createVoid is a Void with NO_ERROR; it is not numeric and reads as 0.0 and 0 |
| Values.CreateError | Sunroom2/src/automation_dsl/unified_value.h:395-400 | createError carries its code, and the error value is unequal to every value on either side |
| Values.CreateActuator | Sunroom2/src/automation_dsl/unified_value.h:406-408 | createActuator is an Actuator with NO_ERROR that is not numeric |
| Values.GetActuatorSetter | Sunroom2/src/automation_dsl/unified_value.h:313-318 | A setter comes back exactly for Actuator values, and it is the one the value was created with |
| Values.ActuatorRoundTrip | Sunroom2/tests_native/unified_value_tests.cpp:87-105 | getActuatorSetter on createActuator(id) gives id; Void and Float values give none |
| Values.TruncOfInt | Sunroom2/src/automation_dsl/unified_value.h:264-278 | static_cast<int> of an integral float is that integer |
| Values.StrictIntIsStrictReal | Sunroom2/src/automation_dsl/unified_value.h:434-475 | Every text the strict strtol parse accepts is accepted by the strict strtof parse with the same number |
| Values.StringAsIntIsTruncatedFloat | Sunroom2/src/automation_dsl/unified_value.h:451-475 | The two-stage integer parse of any text equals the strict float parse truncated toward zero |
| Values.AsIntIsTruncatedAsFloat | Sunroom2/src/automation_dsl/unified_value.h:238-278 | For every kind of value, asInt is asFloat truncated toward zero |
| Values.DecimalOnlyDecimalChars | Sunroom2/src/automation_dsl/unified_value.h:434-446 | A text the decimal grammar accepts holds only digits, signs and the decimal point |
| Values.ForeignCharParsesToZero | Sunroom2/src/automation_dsl/unified_value.h:434-446 | Strictness: any character outside a decimal number (a letter, a space) makes the parse fail and the value 0.0 |
| Values.StrictParseExamples | Sunroom2/tests_native/unified_value_tests.cpp:193-203 | "123.45abc", "123.45 " and "" all read as 0.0 |
| Values.StrictIntParseExample | Sunroom2/tests_native/unified_value_tests.cpp:193-203 | "123abc" reads as the integer 0 |
| Values.TruncationExamples | Sunroom2/tests_native/unified_value_tests.cpp:206-212 | asInt of 25.5, 25.7 and -3.8 is 25, 25 and -3 (truncation, not rounding) |
| Values.ParseNegativeExample | Sunroom2/tests_native/unified_value_tests.cpp:206-212 | "-3.8" reads as -3.8, and as -3 when read as an int |
| Values.ParseFractionExample | Sunroom2/tests_native/unified_value_tests.cpp:206-212 | "25.7" reads as the int 25, the same as the float 25.7 does |
| Values.ErrorNeverEqual | Sunroom2/src/automation_dsl/unified_value.h:327-377 | An Error operand makes == false and != true, and all four orderings false |
| Values.EqualSymmetricReflexive | Sunroom2/src/automation_dsl/unified_value.h:327-340 | == is symmetric, and reflexive exactly on the values that are not errors |
| Values.EqualNotTransitive | Sunroom2/src/automation_dsl/unified_value.h:327-340 | "1" equals 1.0 and 1.0 equals "1.0", but "1" does not equal "1.0", so == is not transitive |
| Values.OrderingDuality | Sunroom2/src/automation_dsl/unified_value.h:345-377 | < and > mirror each other, as do <= and >=. Away from errors, <= is the negation of > and >= of <. Away from two strings, == is <= together with >= |
| SensorValues.ToUnified | Sunroom2/src/automation_dsl/value_types.h:47-56 | A SensorValue maps to a numeric or string unified value, never to an error |
| SensorValues.AgreesWithUnified | Sunroom2/src/automation_dsl/value_types.h:162-254 | asFloat, asInt, ==, !=, < and > of a SensorValue agree with those of its unified value |
| SensorValues.AsIntConsistentWithFloat | Sunroom2/src/automation_dsl/value_types.h:283-311 | A text that strictly parses to x reads as the same int as the float x |
| SensorValues.Trichotomy | Sunroom2/src/automation_dsl/value_types.h:226-254 | Unless both operands are strings, exactly one of ==, < and > holds, and < is > with the operands swapped |
| TimeLiteral.ParseTimeLiteral | Sunroom2/src/automation_dsl/time_helpers.cpp:15-51 | The result is -1 or a second of the day; a non-negative result needs a nine-character text starting with '@' |
| TimeLiteral.TwoDigits | Sunroom2/src/automation_dsl/time_helpers.cpp:27-42 | The canonical two-digit text of n < 100 is two digits worth n |
| TimeLiteral.TwoDigitsOfValue | Sunroom2/src/automation_dsl/time_helpers.cpp:32-42 | Any two-digit text is the canonical text of its own value |
| TimeLiteral.ParseTimeText | Sunroom2/src/automation_dsl/time_helpers.cpp:45-50 | Parsing "@HH:MM:SS" of a valid time gives h*3600 + m*60 + s |
| TimeLiteral.AcceptedIsTimeText | Sunroom2/src/automation_dsl/time_helpers.cpp:15-51 | Every accepted text is the canonical text of the time it denotes |
| TimeLiteral.AcceptsExactlyTimeTexts | Sunroom2/src/automation_dsl/time_helpers.cpp:15-51 | parseTimeLiteral accepts a text if and only if it is a canonical "@HH:MM:SS" with hours 0-23 and minutes and seconds 0-59 |
| TimeLiteral.ParseExamples | Sunroom2/src/automation_dsl/time_helpers.h:42 | "@14:30:00" gives 52200, "@00:00:00" gives 0 and "@23:59:59" gives 86399 |
| TimeLiteral.RefusedExamples | Sunroom2/src/automation_dsl/time_helpers.h:45-46 | "invalid" and "@25:00:00" give -1 |
| Sensors.CurrentSeconds | Sunroom2/src/automation_dsl/bridge_functions.cpp:112-127 | No local time gives -1 and the native build gives noon; a valid local time gives a second of the day |
| Sensors.ClockMatchesTimeLiteral | Sunroom2/src/automation_dsl/bridge_functions.cpp:119-122 | The clock counts seconds exactly as a time literal of the same time does |
| Sensors.ValidateZeroArgSensor | Sunroom2/src/automation_dsl/bridge_functions.cpp:49-57 | A sensor call is an error, namely UNREC_FUNC_ERROR, if and only if the array has more than the name; otherwise it is the reading as a float |
| Sensors.ClockFailureIsMinusOne | Sunroom2/src/automation_dsl/bridge_functions.cpp:95-97 | A clock failure reaches the rule as the number -1.0, not as an error |
| Registry.OperatorNameRoundTrip | Sunroom2/src/automation_dsl/core.cpp:104-227 | The operator-name tests and the operator names are one-to-one |
| Registry.CoreTableIsBuiltIns | Sunroom2/src/automation_dsl/registry_functions.cpp:17-37 | registerCoreFunctions registers exactly the twelve operators, each under its own name |
| Registry.FunctionRegistry.constructor | Sunroom2/src/automation_dsl/core.h:49 | A new registry is empty |
| Registry.FunctionRegistry.Register | Sunroom2/src/automation_dsl/registry_functions.cpp:19 | registry[name] = handler: a later registration replaces an earlier one and nothing else changes |
| Registry.RegisterCoreFunctions | Sunroom2/src/automation_dsl/registry_functions.cpp:17-37 | The registry afterwards is the old registry overridden by the twelve core entries |
| BridgeFunctions.BridgeTableDisjointFromCore | Sunroom2/src/automation_dsl/bridge_functions.cpp:36-42 | No sensor name shadows a core operator |
| BridgeFunctions.RegisterBridgeFunctions | Sunroom2/src/automation_dsl/bridge_functions.cpp:36-42 | The registry afterwards is the old registry overridden by the five sensor entries |
| Core.EvalString | Sunroom2/src/automation_dsl/core.cpp:47-74 | A string yields an actuator only when the environment resolves it. A time literal yields seconds or TIME_ERROR |
| Core.EvalScalar | Sunroom2/src/automation_dsl/core.cpp:75-90 | A scalar literal is never a string, actuator or Void; it is an error exactly for null and objects |
| Core.Eval | Sunroom2/src/automation_dsl/core.cpp:40-101 | Every actuator in the result and in the setter calls comes from the environment, and only arrays make setter calls |
| Core.Arg | Sunroom2/src/automation_dsl/core.cpp:112-118 | Reading past the end of the call yields UNREC_TYPE_ERROR and drives nothing |
| Core.EvalCall | Sunroom2/src/automation_dsl/core.cpp:95-101 | A call's setter calls and actuator all come from the environment |
| Core.EvalOp | Sunroom2/src/automation_dsl/core.cpp:104-230 | Comparisons and logic yield 1.0, 0.0 or an error; SET and NOP yield Void or an error |
| Core.EvalIf | Sunroom2/src/automation_dsl/core.cpp:112-119 | The IF result and its setter calls come from the environment |
| Core.EvalSet | Sunroom2/src/automation_dsl/core.cpp:126-138 | SET yields Void or an error, and drives only actuators the environment resolves |
| Core.EvalAnd | Sunroom2/src/automation_dsl/core.cpp:145-170 | AND yields 1.0, 0.0 or an error |
| Core.EvalOr | Sunroom2/src/automation_dsl/core.cpp:145-170 | OR yields 1.0, 0.0 or an error |
| Core.EvalNot | Sunroom2/src/automation_dsl/core.cpp:176-183 | NOT yields 1.0, 0.0 or an error |
| Core.EvalCompare | Sunroom2/src/automation_dsl/core.cpp:193-227 | A comparison yields 1.0, 0.0 or an error |
| CoreLaws.CallRoutes | Sunroom2/src/automation_dsl/core.cpp:95-101 | A call whose name resolves to an operator (with the right count under the registry) evaluates as that operator |
| CoreLaws.ArgsOfCall | Sunroom2/src/automation_dsl/core.cpp:112-118 | Argument k of ["NAME", args...] is args[k-1] evaluated, or UNREC_TYPE_ERROR past the end |
| CoreLaws.StringResolutionOrder | Sunroom2/src/automation_dsl/core.cpp:47-74 | The order for a string: a time literal, then an actuator name, then a readable value, then UNREC_STR_ERROR. No string literal drives an actuator |
| CoreLaws.TimeLiteralNeverActuator | Sunroom2/src/automation_dsl/core.cpp:49-53 | An '@' string is never an actuator; read as seconds, it lies within the day |
| CoreLaws.ScalarLiterals | Sunroom2/src/automation_dsl/core.cpp:75-90 | A boolean reads as 1.0 or 0.0, a 32-bit integer as Int, any other number as Float, and null or an object as UNREC_TYPE_ERROR |
| CoreLaws.NotACall | Sunroom2/src/automation_dsl/core.cpp:95-99 | An empty array, or one whose head is not a string, is UNREC_FUNC_ERROR |
| CoreLaws.UnknownName | Sunroom2/tests_native/function_registry_tests.cpp:198-203 | An unknown name is UNREC_FUNC_ERROR under the built-in chain and FUNCTION_NOT_FOUND under the registry, and no argument is evaluated |
| CoreLaws.WrongArity | Sunroom2/src/automation_dsl/registry_functions.cpp:44-237 | A registry handler refuses a wrong element count with its own error code, before evaluating any argument |
| CoreLaws.SensorCall | Sunroom2/tests_native/bridge_integration_tests.cpp:209-219 | ["sensor"] reads the snapshot; a sensor call with arguments is UNREC_FUNC_ERROR |
| CoreLaws.NopIgnoresArguments | Sunroom2/src/automation_dsl/core.cpp:104-106 | NOP is Void whatever its arguments, and drives nothing |
| CoreLaws.IfSemantics | Sunroom2/src/automation_dsl/core.cpp:112-119 | An error condition is returned; a non-numeric one is IF_CONDITION_ERROR; otherwise the chosen branch, after the condition's setter calls |
| CoreLaws.IfUntakenBranchIrrelevant | Sunroom2/src/automation_dsl/core.cpp:118 | The branch not taken can be replaced by anything without changing the outcome |
| CoreLaws.SetOperands | Sunroom2/src/automation_dsl/core.cpp:126-128 | SET evaluates both of its operands |
| CoreLaws.SetSemantics | Sunroom2/src/automation_dsl/core.cpp:126-138 | The actuator's error comes first, then the value's. A wrong kind is BOOL_ACTUATOR_ERROR. Otherwise the actuator is driven once with the value's float reading and the result is Void |
| CoreLaws.SetNamedActuator | Sunroom2/tests_native/function_registry_tests.cpp:175-189 | ["SET", name, n] drives the resolved actuator with n and nothing else |
| CoreLaws.AndOperands | Sunroom2/src/automation_dsl/core.cpp:145-160 | AND reads its first operand from argument 1 and its second from argument 2 |
| CoreLaws.OrOperands | Sunroom2/src/automation_dsl/core.cpp:145-160 | OR reads its first operand from argument 1 and its second from argument 2 |
| CoreLaws.AndSemantics | Sunroom2/src/automation_dsl/core.cpp:145-170 | A first operand that is not positive gives 0.0 without evaluating the second. Otherwise both must be numbers, and the result is 1.0 exactly when both are positive |
| CoreLaws.OrSemantics | Sunroom2/src/automation_dsl/core.cpp:145-170 | A positive first operand gives 1.0 without evaluating the second. Otherwise both must be numbers, and the result is 1.0 exactly when either is positive |
| CoreLaws.ShortCircuit | Sunroom2/tests_native/function_registry_tests.cpp:256-268 | Once the first operand decides AND or OR, the second operand can be anything, even a failing call |
| CoreLaws.NotSemantics | Sunroom2/src/automation_dsl/core.cpp:176-183 | NOT is 1.0 exactly when its numeric operand is not positive; a non-numeric operand is NOT_ERROR |
| CoreLaws.CompareOperands | Sunroom2/src/automation_dsl/core.cpp:196-197 | A comparison evaluates both of its operands |
| CoreLaws.ComparisonErrorOrder | Sunroom2/src/automation_dsl/core.cpp:198-199 | The first operand's error wins, then the second's |
| CoreLaws.EqualityOperators | Sunroom2/src/automation_dsl/core.cpp:202-207 | EQ and NE accept any two values that are not errors and always answer opposite truth values |
| CoreLaws.OrderingOperators | Sunroom2/src/automation_dsl/core.cpp:208-226 | GT, LT, GTE and LTE demand numbers (else COMPARISON_TYPE_ERROR) and then compare the float readings |
| Relays.WithAutoDigitDigits | Sunroom2/src/automation_dsl/bridge.cpp:63-74 | setRelay makes the tens digit the truncated value and keeps the ones digit |
| Relays.WithAutoDigitKeepsCodesValid | Sunroom2/src/definitions.h:56-70 | Writing a level in [0, 3) to one of the nine relay codes gives a relay code again |
| Relays.WithAutoDigitNegative | Sunroom2/src/automation_dsl/bridge.cpp:63-74 | A level of -1 or below turns a relay code negative, outside the nine codes, and C's `%` reads a force digit f of 1 or 2 back as f - 10 |
| Relays.NegativeLevelExample | Sunroom2/src/automation_dsl/bridge.cpp:63-74 | Level -1 on a force-on relay reset to 21 gives -9, whose force digit reads -9 |
| Relays.SetRelayOnExample | Sunroom2/tests_native/function_registry_tests.cpp:175-189 | SET 1 on code 0 gives 10 (auto on) |
| Relays.SetRelayOffExample | Sunroom2/tests_native/function_registry_tests.cpp:175-189 | SET 0 on code 10 gives 0 |
| Relays.DontCareKeepsForceExample | Sunroom2/src/automation_dsl/core.cpp:258-265 | The don't-care reset turns force-on code 1 into 21 |
| Relays.SetRelay | Sunroom2/src/automation_dsl/bridge.cpp:63-74 | Exactly the one relay's code changes, to its new code |
| Relays.RelayName | Sunroom2/src/automation_dsl/core.cpp:262 | The name of relay i starts with "relay_" |
| Relays.ResolveRelayUnchecked | Sunroom2/src/automation_dsl/bridge.cpp:134-148 | The bridge resolver accepts exactly the names starting with "relay_" |
| Relays.ResolveRelay | Sunroom2/src/automation_dsl/bridge.cpp:134-148 | The corrected resolver accepts exactly what the unchecked one accepts with an index inside the relay table, and gives the same index |
| Relays.ResolveRelayName | Sunroom2/src/automation_dsl/core.cpp:262 | "relay_" + to_string(i) resolves to i |
| Relays.UncheckedResolverReadsAtoi | Sunroom2/src/automation_dsl/bridge.cpp:140 | The index of "relay_" + rest is atoi(rest) |
| Relays.UncheckedResolverOutOfRange | Sunroom2/src/automation_dsl/bridge.cpp:134-148 | The bridge resolver hands out the index one past the last entry of the table and every negative index; the corrected one refuses both |
| Relays.UncheckedResolverNoDigits | Sunroom2/src/automation_dsl/bridge.cpp:140 | A "relay_" name followed by no digits is relay 0 |
| Relays.UncheckedResolverNoDigitsExample | Sunroom2/src/automation_dsl/new_bridge.cpp:49-63 | "relay_x" is relay 0 to both resolvers |
| Text.AtoiOfNatToString | Sunroom2/src/automation_dsl/bridge.cpp:140 | atoi reads a printed natural number back |
| Text.AtoiStopsAtNonDigit | Sunroom2/src/automation_dsl/bridge.cpp:140 | atoi stops at the first character that is not a digit |
| Text.AtoiOfIntToString | Sunroom2/src/servers.cpp:328 | atoi reads a printed integer back, sign included |
| Text.AtoiOfDigits | PropagationBox/src/servers.cpp:95-96 | A text of digits reads as their value |
| Text.AtoiOfNoDigits | Sunroom2/src/automation_dsl/bridge.cpp:140 | A text starting with neither space, sign nor digit reads as 0 |
| RuleSet.ActuatorsBelowMonotone | Sunroom2/src/automation_dsl/bridge.cpp:151-157 | A relay table at least as large holds every actuator a smaller one does |
| RuleSet.OutcomeBelow | Sunroom2/src/automation_dsl/core.cpp:281 | A rule drives only relays of the table when the environment hands out only such relays |
| RuleSet.ApplyWritesTo | Sunroom2/src/automation_dsl/core.cpp:126-138 | Carrying out a rule's setter calls in place leaves the table that the calls give in order |
| RuleSet.ProcessRuleSet | Sunroom2/src/automation_dsl/core.cpp:255-314 | The rules are handled in index order, and the table ends as RunRuleSet of the old table |
| RuleSet.RunOneRule | Sunroom2/src/automation_dsl/core.cpp:255-314 | A rule set of one rule is one step of the driver on rule 0 |
| RuleSet.HandleRule | Sunroom2/src/automation_dsl/core.cpp:258-311 | One loop iteration: reset relay_i, skip an unparsable rule, apply its setter calls, drive relay_i with a numeric result |
| RuleSet.ApplyWritesFrame | Sunroom2/src/automation_dsl/bridge.cpp:63-74 | A relay that no setter call names keeps its code |
| RuleSet.ApplyWritesKeepsForce | Sunroom2/src/automation_dsl/bridge.cpp:63-74 | Setter calls with non-negative levels keep every code non-negative and every force digit |
| RuleSet.DriveKeepsForce | Sunroom2/src/automation_dsl/bridge.cpp:63-74 | One setter call keeps every force digit |
| RuleSet.ApplyWritesKeepsForceAt | Sunroom2/src/automation_dsl/bridge.cpp:63-74 | The same, at one relay |
| RuleSet.RuleStepUnparsable | Sunroom2/src/automation_dsl/core.cpp:268-279 | A rule that does not parse only resets relay_i to don't-care (auto digit 2, force digit kept) |
| RuleSet.RuleStepNumericResult | Sunroom2/src/automation_dsl/core.cpp:285-300 | For non-negative codes, SET levels and result, a numeric result has the last word: relay_i ends with the truncated result as its auto digit and keeps its force digit |
| RuleSet.RuleStepNegativeResult | Sunroom2/src/automation_dsl/core.cpp:285-300 | A result of -1 or below (getCurrentTime's clock-failure -1 included) leaves relay_i outside the nine codes, and a force digit of 1 or 2 reads back as that digit minus 10 |
| RuleSet.RuleStepNoAutoWrite | Sunroom2/src/automation_dsl/core.cpp:301-311 | A Void or Error result drives nothing after the rule's own SET calls; if none of them names relay_i, relay_i stays at don't-care |
| RuleSet.RuleStepFrame | Sunroom2/src/automation_dsl/core.cpp:255-314 | A relay that is neither relay_i nor driven by rule i keeps its code |
| Bridge.RegisterFunctions | Sunroom2/src/automation_dsl/bridge.cpp:119-125 | registerFunctions adds the core operators and then the sensor functions |
| Bridge.BridgeHandlersHoldBoth | Sunroom2/src/automation_dsl/bridge.cpp:119-125 | Every operator and every sensor is found under its own name, and nothing else is |
| Bridge.BridgeRoutes | Sunroom2/src/automation_dsl/bridge.cpp:119-125 | With the bridge's registry, every operator call with the right count reaches the operator |
| Bridge.BridgeEnvBelow | Sunroom2/src/automation_dsl/bridge.cpp:134-148 | With the checked resolver, every actuator is a relay of the table |
| Bridge.UncheckedBridgeEscapes | Sunroom2/src/automation_dsl/bridge.cpp:134-148 | With the resolver as written, ["SET","relay_<size>",1] writes relay `size`, one past the last entry of a table of `size` relays |
| Bridge.UncheckedBridgeWritesNegative | Sunroom2/src/automation_dsl/bridge.cpp:134-148 | With the resolver as written, ["SET","relay_-1",1] (any negative index) writes before the start of the table |
| Bridge.CheckedBridgeRefuses | Sunroom2/src/automation_dsl/bridge.cpp:134-148 | With the corrected resolver the rule on relay_<size> is UNREC_STR_ERROR and drives nothing |
| Bridge.CheckedAgreesWithinTable | Sunroom2/src/automation_dsl/bridge.cpp:134-148 | The corrected resolver answers as the resolver as written for every index inside the table, and refuses every other |
| Bridge.PastTheEndUnresolved | Sunroom2/src/automation_dsl/bridge.cpp:134-148 | Under the corrected resolver the name one past the last entry of the table evaluates to UNREC_STR_ERROR |
| Bridge.BridgeResolvesEveryRelay | Sunroom2/src/automation_dsl/bridge.cpp:134-148 | Every relay of the table, in use or not, is reachable by its own name under both resolvers |
| Bridge.SetDrivesAnyTableRelay | Sunroom2/src/automation_dsl/bridge.cpp:134-148 | ["SET","relay_<k>",1] drives relay k for every k of the table |
| Bridge.RuleDrivesRelayOutsideRulesInUse | Sunroom2/src/automation_dsl/bridge.cpp:130-158 | With only rule 0 in use, a rule that sets relay k of the table drives it auto on and keeps its force digit, while relay 0 is left at don't care |
| Bridge.ProcessAutomationDsl | Sunroom2/src/automation_dsl/bridge.cpp:130-158 | The relay table ends as the rule-set run of the first `count` (RUNTIME_RELAY_COUNT) stored rules, with every relay of the whole table RELAY_VALUES reachable by name |
| Bridge.WarmRuleIsTrue | Sunroom2/src/automation_dsl/bridge.cpp:31-32 | ["GT",["getTemperature"],25] at 30 degrees is 1.0 and drives nothing |
| Bridge.SimpleRuleDrivesItsRelay | Sunroom2/tests_native/bridge_integration_tests.cpp:293-311 | That simple rule turns its own relay to auto-on and keeps the relay's force digit |
| LegacyCore.Seconds | Sunroom2/src/rule_core.cpp:38-39 | A negative clock or parser answer is TIME_ERROR; otherwise it is the number of seconds as a FLOAT |
| LegacyCore.LArg | Sunroom2/src/rule_core.cpp:103-106 | Reading past the end of the call yields UNREC_TYPE_ERROR |
| LegacyLaws.LegacyCallRoutes | Sunroom2/src/rule_core.cpp:90-156 | A call is routed by its name to its operator |
| LegacyLaws.LegacyScalarLiterals | Sunroom2/src/rule_core.cpp:72-87 | Booleans and every number, integers included, become FLOAT; null and objects are UNREC_TYPE_ERROR |
| LegacyLaws.LegacyStringOrder | Sunroom2/src/rule_core.cpp:32-71 | The order for a string: the time parser, then an actuator, then a sensor, then "currentTime", then UNREC_STR_ERROR |
| LegacyLaws.LegacyIfSemantics | Sunroom2/src/rule_core.cpp:101-107 | A condition that is not FLOAT is IF_CONDITION_ERROR; only the chosen branch is evaluated |
| LegacyLaws.LegacySetSemantics | Sunroom2/src/rule_core.cpp:108-117 | SET demands an actuator and a FLOAT and drives the actuator once |
| LegacyLaws.LegacyAndOrOperands | Sunroom2/src/rule_core.cpp:118-131 | AND and OR share one body over their operands' results |
| LegacyLaws.LegacyShortCircuit | Sunroom2/src/rule_core.cpp:123-124 | The short circuit reads the first operand's val whatever its type, so a VOID first operand makes AND false at once |
| LegacyLaws.LegacyCompareOperands | Sunroom2/src/rule_core.cpp:139-142 | A comparison evaluates both of its operands |
| LegacyLaws.LegacyComparisonsNeedFloats | Sunroom2/src/rule_core.cpp:143-153 | All six comparisons, EQ and NE included, demand two FLOATs (else COMPARISON_TYPE_EQUALITY_ERROR) |
| LegacyLaws.IfAgrees | Sunroom2/src/rule_core.cpp:101-107 | The two IFs agree when their operands agree |
| LegacyLaws.AndOrAgrees | Sunroom2/src/rule_core.cpp:118-131 | The two ANDs and the two ORs agree when their operands agree |
| LegacyLaws.NotAgrees | Sunroom2/src/rule_core.cpp:132-138 | The two NOTs agree when their operands agree |
| LegacyLaws.CompareAgrees | Sunroom2/src/rule_core.cpp:139-154 | The two comparisons agree on numeric operands |
| LegacyLaws.NumericRulesAgree | Sunroom2/src/rule_core.cpp:26-157 | On rules made of numbers, booleans, IF, AND, OR, NOT and comparisons, both evaluators compute the same number and drive nothing |
| LegacyLaws.ActuatorEqualityDiffers | Sunroom2/src/rule_core.cpp:145 | EQ of two actuator names is true for the newer evaluator and COMPARISON_TYPE_EQUALITY_ERROR for the legacy one |
| Servers.FreePins | Sunroom2/src/servers.cpp:262-273 | The options are exactly the valid pins that no relay in use occupies |
| Servers.ShiftLeft | Sunroom2/src/servers.cpp:335-342 | After the shift, the first count-1 entries are the old ones without entry idx, and the tail is unchanged |
| Servers.RemoveKeepsPinsDistinct | Sunroom2/src/servers.cpp:325-350 | Removing a relay keeps the remaining pins distinct and valid |
| Servers.ShiftKeepsPinsOk | Sunroom2/src/servers.cpp:335-343 | After the shift, the relays still in use have distinct, valid pins |
| Servers.AddTakesOption | Sunroom2/src/servers.cpp:288-323 | A new relay's pin leaves the GPIO options, and nothing else does |
| Servers.RemoveFreesOption | Sunroom2/src/servers.cpp:325-350 | Removing a relay returns its pin, and only that pin, to the options |
| Servers.ShiftOut | Sunroom2/src/servers.cpp:335-342 | The shift loop on one array leaves the left shift of the old contents |
| Servers.RelayTable.constructor | Sunroom2/src/servers.cpp:288-323 | An empty table with MAX_RELAYS slots |
| Servers.RelayTable.PinUsed | Sunroom2/src/servers.cpp:307 | The loop answers true exactly when a relay in use has the pin |
| Servers.RelayTable.AddRelay | Sunroom2/src/servers.cpp:288-323 | Four refusals in source order, each leaving the table unchanged. Success fills slot count with the pin, the inversion flag, FORCE_OFF_AUTO_X, ["NOP"] and "Relay <idx>". Pins stay distinct and valid |
| Servers.RelayTable.PlaceRelay | Sunroom2/src/servers.cpp:309-315 | Slot count is filled and count grows by one |
| Servers.RelayTable.RemoveRelay | Sunroom2/src/servers.cpp:325-350 | The index defaults to the last relay and must name a relay in use. Success shifts all five arrays left from idx and shrinks count. Pins stay distinct and valid |
| Servers.RelayTable.TakeOut | Sunroom2/src/servers.cpp:335-343 | All five arrays are shifted left from idx and count shrinks by one |
| Servers.RelayTable.GetGpioOptions | Sunroom2/src/servers.cpp:262-273 | The reply lists the valid pins that are not in use |
| Servers.RelayTable.SetRelays | Sunroom2/src/servers.cpp:50-59 | Each relay in use whose relay_<i> field is present takes that field's integer as its code; every other code is kept |
| Servers.RelayTable.GetRule | Sunroom2/src/servers.cpp:184-197 | The rule of a relay in use, or "Relay not found" |
| Servers.RelayTable.SetRule | Sunroom2/src/servers.cpp:207-227 | Both fields are required and the index must name a relay in use. Only that rule changes, and the reply echoes it |
| Servers.RelayTable.SetRelayLabel | Sunroom2/src/servers.cpp:229-248 | The same checks; only that label changes, and the reply echoes it |
| JsonText.Escaped | Sunroom2/src/json.cpp:9-20 | '"' becomes \", a newline becomes \n, and any other character stays as it is |
| JsonText.EscapeString | Sunroom2/src/json.cpp:4-23 | The loop's result is every character escaped in turn |
| JsonText.EscapeLength | Sunroom2/src/json.cpp:4-23 | The escape is one character longer for every '"' and every newline |
| JsonText.EscapeIdentity | Sunroom2/src/json.cpp:4-23 | A text with neither '"' nor a newline is written unchanged |
| JsonText.EscapeCollides | Sunroom2/src/json.cpp:4-23 | A backslash followed by 'n' and a newline escape to the same text |
| JsonText.ListedMembers | Sunroom2/src/json.cpp:28-32 | The loop writes every member followed by a comma |
| JsonText.BuildJson | Sunroom2/src/json.cpp:25-36 | A non-empty map gives "{" + members joined by commas + "}"; an empty map gives "}" |
| JsonText.JsonEscapeRoundTrip | Sunroom2/src/json.cpp:4-23 | The corrected escape, which also escapes the backslash, is read back exactly |
| JsonText.JsonEscapeInjective | Sunroom2/src/json.cpp:4-23 | Different texts never share a corrected escape |
| JsonText.EscapesAgree | Sunroom2/src/json.cpp:4-23 | Without a backslash, the escape as written and the corrected one agree |
| JsonText.JsonObject | Sunroom2/src/json.cpp:25-36 | The corrected object text is always braced, and "{}" for an empty map |
| JsonText.MembersAgree | Sunroom2/src/json.cpp:28-32 | Two escapes that agree on every key and value give the same members |
| JsonText.BuildJsonAgrees | Sunroom2/src/json.cpp:25-36 | A non-empty map with no backslash gives the correct object |
| IntervalTimer.Elapsed | Sunroom2/src/interval_timer.cpp:15 | millis() - lastChecked in unsigned long is the delay below 2^32 that leads from lastChecked to now |
| IntervalTimer.ElapsedUnique | Sunroom2/src/interval_timer.cpp:15 | That delay is the only one below 2^32 |
| IntervalTimer.Start | Sunroom2/src/interval_timer.cpp:5-12 | With runOnStart the last check lies two intervals back (mod 2^32); without it, it is now |
| IntervalTimer.Timer.constructor | Sunroom2/src/interval_timer.cpp:5-12 | The interval is stored and lastChecked is set as Start says |
| IntervalTimer.Timer.IsIntervalPassed | Sunroom2/src/interval_timer.cpp:14-20 | Fires exactly when the wrapped delay reaches the interval, and then restarts the wait at now |
| IntervalTimer.ElapsedAdds | Sunroom2/src/interval_timer.cpp:15 | Delays add up while their sum stays below 2^32 |
| IntervalTimer.FirstCallFires | Sunroom2/src/interval_timer.cpp:7-8 | With runOnStart, a call made within one interval of construction fires |
| IntervalTimer.FiresAcrossWrap | Sunroom2/src/interval_timer.cpp:15 | Across the wrap of millis(), the timer fires exactly when the real delay reaches the interval |
| IntervalTimer.NoRunOnStartWaits | Sunroom2/src/interval_timer.cpp:9-10 | Without runOnStart, the first call fires only once an interval has passed |
| Units.CToF | Sunroom2/src/units.h:6-13 | The sentinel passes through; any other reading c gives f with (f-32)*5/9 = c |
| Units.CToFIncreasing | Sunroom2/src/units.h:12 | Away from the sentinel the conversion is strictly increasing |
| Units.SentinelShadowsReading | Sunroom2/src/units.h:8-11 | A real reading of -100 C comes back as -100, not -148, and so lands above the conversion of -99 C |
| PinHelpers.BoardPinAllowed | Sunroom2/src/pin_helpers.cpp:3-19 | The scan answers true if and only if the pin is in the allow-list |
| PropagationTime.Mod | PropagationBox/src/time_helpers.cpp:65-69 | For a positive divisor the result lies in [0, b) |
| PropagationTime.ModIsEuclidean | PropagationBox/src/time_helpers.cpp:65-69 | For a positive divisor mod is the mathematical remainder, negative dividends included |
| PropagationTime.NormalizeTimeToStartTime | PropagationBox/src/time_helpers.cpp:74-77 | The result is a minute of the day |
| PropagationTime.NormalizeFromStart | PropagationBox/src/time_helpers.cpp:74-77 | The start time is minute 0, and k minutes later is minute k |
| PropagationTime.NormalizeIsDaily | PropagationBox/src/time_helpers.cpp:74-77 | A whole number of days later is the same minute of the schedule |
| PropagationServers.Substring | PropagationBox/src/servers.cpp:95-96 | substring(l, r) is the slice from l to r when the bounds fit the text |
| PropagationServers.PaddedTwoDigits | PropagationBox/src/servers.cpp:17-18 | Below 100 the padded text is two digits that read as n |
| PropagationServers.FormatTimeParts | PropagationBox/src/servers.cpp:13-20 | For non-negative minutes, the hour is the quotient by 60 and the minute the remainder |
| PropagationServers.FormatTimeShape | PropagationBox/src/servers.cpp:13-20 | Below 100 hours the text is "dd:dd" |
| PropagationServers.ParseFormatRoundTrip | PropagationBox/src/servers.cpp:93-98 | parseTimeAsMinutes(formatTime(m)) == m for 0 <= m < 6000 |

## Left out

- ArduinoJson's deserializeJson is a parameter `string -> Option<Json>`. Only the tree it produces is modelled. A document past the 1024-byte buffer shows up as a parse failure.
- A missing environment callback is modelled as one that answers None for every name.
- The registry evaluator: it is modelled from the handlers of `registry_functions.cpp` and `bridge_functions.cpp` and from the registry tests. The dispatching function itself (processNewRuleCore, new_core.h) is not part of this model.
- The built-in evaluator of `core.cpp` reads unknown strings through a `tryReadValue` callback declared in `core_deprecated.h`. It is a parameter here.
- Setter calls during evaluation are recorded in order and applied to the relay table afterwards. Nothing in the evaluator reads the relay table, so the final table is the same.
- `new_bridge.cpp` repeats setRelay, the resolver and the registration of `bridge.cpp`. They are modelled once.
- IEEE-754 single-precision floats are modelled as `real`. Rounding, NaN and infinity are not modelled, nor is the inexact int-to-float cast (e.g. in `ScalarLiterals` and `LegacyScalarLiterals`).
- LIGHT_LEVEL is declared `int` in `definitions.h` and `extern float` in `bridge_functions.cpp`. The model reads it as a real.
- RUNTIME_RELAY_COUNT, MAX_RELAYS and VALID_GPIO_PINS are parameters: the relay count, the table size and the allow-list. The concrete ESP32-S3 allow-list is not part of this model.
- The legacy `rule_core.h` declares a processRuleSet that `rule_core.cpp` does not define. Only the legacy evaluator is modelled. Its RuleReturn type follows `automation_dsl/types.h`.
- asString and the snprintf-based float and int formatting of the value types are not modelled.
- The string parses cover decimal notation with an optional sign and point. strtof's leading white space, exponents, hexadecimal floats, "inf" and "nan" are not modelled.
- Bridge.ProcessAutomationDsl: the relay resolver refuses an index outside the relay table (negative, or RELAY_COUNT and above), where the source's setRelay writes outside RELAY_VALUES, which is undefined behaviour in C++. Inside the table it accepts exactly what the source accepts, relays past RUNTIME_RELAY_COUNT included.
- Values.Trunc, Values.AsInt, Values.StringAsInt and Relays.WithAutoDigit: the int range is not modelled. `static_cast<int>` of a float outside the int range is undefined behaviour, `trunc(value) * 10 + old % 10` in setRelay can overflow, and the ESP32's 32-bit strtol saturates a too-long integer text ("3000000000" becomes LONG_MAX in the first stage, where the model falls through to the float stage). The model computes with unbounded integers throughout.
- Relays.WithAutoDigit: `static_cast<RelayValue>` of a code outside the enum's range (a negative code, see Relays.WithAutoDigitNegative) is unspecified in C++. The model keeps the integer.
- Text.Atoi: C's atoi and Arduino's toInt have undefined or wrapping behaviour outside the int range. The model reads the digits as an unbounded integer.
- The relay web routes: persisting the tables, re-running the rules, reconfiguring the pins and the JSON of getRelayConfig are I/O and are left out. A reply is modelled as its message or stored value.
- Servers.RelayTable.SetRelays stores the integer of the form field as the source does, without checking it is one of the nine relay codes.
- Servers.RelayTable.RemoveRelay: the source shifts the five arrays in one loop. The model shifts them one array after the other, which gives the same final state.
- IntervalTimer.Timer.IsIntervalPassed: the source calls millis() twice, once for the test and once for the new lastChecked. The model takes one reading `now` for both.
- A std::map argument of buildJson is passed as its entries in the map's iteration order (sorted by key); the sorting itself is not modelled.
- PropagationServers.FormatTimeParts and PropagationTime.NormalizeTimeToStartTime: 32-bit int overflow of the arithmetic is not modelled.
- Wi-Fi, OTA, the preact pages, sensor drivers and PWM are outside the modelled core.

## Findings

| source | as written | input that shows it | evidently intended | confidence | as-written member | corrected member |
|---|---|---|---|---|---|---|
| Sunroom2/src/automation_dsl/bridge.cpp:134-148 | Any name starting with "relay_" is an actuator with index atoi(rest), with no bound. setRelay then writes RELAY_VALUES[index] | the rule ["SET","relay_-1",1], or ["SET","relay_<RELAY_COUNT>",1] | Indices outside RELAY_VALUES are not actuators; indices inside it, in use or not, are | not executed | Bridge.UncheckedBridgeEscapes | Bridge.CheckedBridgeRefuses |
| Sunroom2/src/json.cpp:25-36 | An empty map gives "}": the trailing-comma removal drops the opening brace | an empty std::map | "{}" | not executed | JsonText.BuildJson | JsonText.JsonObject |
| Sunroom2/src/json.cpp:4-23 | escapeString does not escape a backslash, so different texts can share an escape and be read back wrongly | a backslash followed by 'n', against a newline | A backslash is written as two backslashes, and every text is read back | not executed | JsonText.EscapeCollides | JsonText.JsonEscapeRoundTrip |
