# Celsius holders and camera-configuration catalogue, modelled in Dafny

This project models the logic of the python-template example package that can
be stated and proved:

- **The Celsius temperature holder**, in its two versions. Both store a
  temperature, expose a getter, a setter that raises `ValueError` for a value
  strictly below absolute zero (-273.15 °C) and leaves the stored value as it
  was, and a Celsius-to-Fahrenheit conversion `t * 1.8 + 32`.
  - `src/example/celcius.py` (module `UncheckedCelsius`): the constructor
    stores its argument directly, so `Celsius(-300)` exists and the
    absolute-zero bound is not an invariant.
  - `example/celcius.py` (module `CheckedCelsius`): the constructor goes through
    the setter, so construction below absolute zero fails and every holder
    satisfies `Valid()` (temperature not below -273.15), which every operation
    keeps.
- **Camera configuration handling** in `src/example/cam_config.py` (module
  `CamConfig`): the four-line text rendering `to_string` of a loaded
  configuration, the catalogue of configuration names
  `get_config_files_names`, and the first-match lookup `get_config_file_path`.
  The bundled resource directory is an input sequence of `Entry(path, stem,
  suffix)` values in glob order; the `.json` glob is taken to enumerate the
  `.json` entries of that sequence in the same order.

Files: `results.dfy` (Option/Result/Outcome), `temperature.dfy` (the bound,
the error, the inverse conversion `CelsiusOf`), `src_celcius.dfy`,
`example_celcius.dfy`, `cam_config.dfy`.

Temperatures are exact `real`s. Equalities such as 37 °C = 98.6 °F hold over
the reals, not necessarily over IEEE-754 doubles.

Where the code falls short of its own docstrings, the model follows the code:
- The class docstring of `Celsius` in `src/example/celcius.py` (lines 13-15)
  promises the absolute-zero check, but the constructor (line 28) stores its
  argument without it (see Findings).
- The docstring of `get_config_files_names` (src/example/cam_config.py:57-61)
  says nothing about order. The comprehension keeps glob enumeration order,
  and so does the model.

## Model

| member | source | states |
|---|---|---|
| `UncheckedCelsius.Celsius.constructor` | src/example/celcius.py:21-28 | stores the initial value (default 0) exactly as given, with no absolute-zero check |
| `UncheckedCelsius.Celsius.GetTemperature` | src/example/celcius.py:38-49 | returns the stored temperature and modifies nothing |
| `UncheckedCelsius.Celsius.SetTemperature` | src/example/celcius.py:51-68 | fails with `ValueError("Temperature below -273 is not possible")` exactly when value < -273.15 (so -273.15 itself is accepted); on failure the stored value is unchanged, otherwise it becomes the value |
| `UncheckedCelsius.Celsius.ToFahrenheit` | src/example/celcius.py:30-36 | a read-only function of the stored value whose inverse `CelsiusOf` gives back the Celsius temperature; below -459.67 °F exactly when the stored value is below absolute zero |
| `UncheckedCelsius.ToFahrenheitStrictlyIncreasing` | src/example/celcius.py:36 | Fahrenheit order equals Celsius order, in both directions |
| `UncheckedCelsius.DefaultReading` | src/example/celcius.py:21-36 | a default holder reads 0 °C and 32 °F |
| `UncheckedCelsius.ConstructBelowAbsoluteZero` | src/example/celcius.py:21-28 | `Celsius(-300)` yields a holder at -300, a value the setter rejects: construction does not establish the bound |
| `UncheckedCelsius.Demo` | src/example/celcius.py:80-82 | `Celsius(37)`, set to -30, gives -22 °F; a rejected set of -300 afterwards leaves -22 °F |
| `CheckedCelsius.Celsius.New` | example/celcius.py:7-9 | construction through the setter fails with `ValueError` exactly when the initial value (default 0) is below -273.15; otherwise a fresh holder satisfying the invariant stores exactly that value |
| `CheckedCelsius.Celsius.GetTemperature` | example/celcius.py:14-17 | returns the stored value, which is not below absolute zero, and modifies nothing |
| `CheckedCelsius.Celsius.SetTemperature` | example/celcius.py:19-24 | keeps the invariant; fails with `ValueError` exactly when value < -273.15 and then leaves the value unchanged; otherwise stores the value |
| `CheckedCelsius.Celsius.ToFahrenheit` | example/celcius.py:11-12 | read-only; inverted by `CelsiusOf`; never below -459.67 °F on a valid holder |
| `CheckedCelsius.ToFahrenheitStrictlyIncreasing` | example/celcius.py:11-12 | Fahrenheit order equals Celsius order, in both directions |
| `CheckedCelsius.DefaultReading` | example/celcius.py:7-12 | `Celsius()` succeeds and reads 0 °C and 32 °F |
| `CheckedCelsius.ConstructAtAbsoluteZero` | example/celcius.py:22-24 | the guard is strict: `Celsius(-273.15)` succeeds and stores -273.15 |
| `CheckedCelsius.Demo` | main.py:20-22 | `Celsius(37)`, set to -30, gives -22 °F; a later set of -300 is rejected and -30 stays observable |
| `Temperature.CelsiusOf` | src/example/celcius.py:36 | the inverse of `t * 1.8 + 32`; a Fahrenheit value is below -459.67 exactly when its Celsius value is below -273.15 |
| `CamConfig.BoolText` | src/example/cam_config.py:49-51 | renders a flag as `True` or `False` (one exactly when the flag holds), with no newline |
| `CamConfig.ToString` | src/example/cam_config.py:42-53 | the rendering is non-empty and ends in a newline |
| `CamConfig.ToStringStartsWithHeader` | src/example/cam_config.py:48 | the rendering begins with `"Camera Config: \n"` |
| `CamConfig.ToStringLines` | src/example/cam_config.py:48-51 | the rendering is exactly four lines: the header, then `Inverted: `, `Fisheye: `, `Mono: ` with the matching flag |
| `CamConfig.ToStringDeterminedByFlags` | src/example/cam_config.py:42-53 | two configurations render identically exactly when their three flags agree: `socket_to_name` and the file path do not appear, and each flag is shown |
| `CamConfig.ConfigFilesNames` | src/example/cam_config.py:56-63 | at most one name per entry |
| `CamConfig.ConfigFilesNamesMembers` | src/example/cam_config.py:63 | a name is listed exactly when some `.json` entry has it as its stem |
| `CamConfig.ConfigFilesNamesAppend` | src/example/cam_config.py:63 | listing a concatenation lists each part in turn, so order and duplicates are kept |
| `CamConfig.ConfigFilesNamesPosition` | src/example/cam_config.py:63 | the `.json` entry at index i contributes its stem at the position equal to the number of names listed before it |
| `CamConfig.ConfigFilesNamesOrder` | src/example/cam_config.py:63 | distinct `.json` entries occupy distinct positions, in enumeration order |
| `CamConfig.FirstWithStem` | src/example/cam_config.py:77-80 | the index of the first entry, of any suffix, whose stem is the name; none exactly when no entry has that stem |
| `CamConfig.ConfigFilePath` | src/example/cam_config.py:66-80 | the loop returns the first entry whose stem is the name, and `None` exactly when no entry has that stem |
| `CamConfig.ListedNamesResolve` | src/example/cam_config.py:63-79 | every listed name resolves to some entry |
| `CamConfig.NonJsonEntryShadowsConfig` | src/example/cam_config.py:63-79 | with a `cam.txt` enumerated before `cam.json`, `cam` is listed but lookup returns the `.txt` entry |
| `CamConfig.JsonConfigFilePath` | src/example/cam_config.py:66-80 | lookup restricted to `.json` entries: returns the first `.json` entry with that stem, and finds one exactly for the listed names |

## Left out

- `CamConfig.__init__` (src/example/cam_config.py:27-40): opening the file and `json.load` are I/O and a library call. A `Config` value holds the path and the values of the keys `socket_to_name`, `inverted`, `fisheye` and `mono`. The flags are taken to be JSON booleans; other JSON values would be rendered by Python's `str` and are not modelled.
- The `importlib.resources.files(...).glob(...)` calls: replaced by the input sequence of entries. pathlib's computation of `stem` and `suffix` is not modelled either; both are given per entry. So are two corner cases of the `*.json` pattern: a file named exactly `.json` has an empty suffix, and globbing is case-insensitive on some platforms.
- CamConfig.ConfigFilePath: returns the matching entry rather than `file.resolve()`, because resolving an absolute path consults the file system.
- `CheckedCelsius.Celsius.Allocate`: in the source the `_temperature` attribute does not exist until the setter first succeeds. The model allocates with a placeholder 0 that `New` never hands out.
- `to_string` builds its result with `+=` on a local string. It is modelled as a function with one binding per step, because the steps are a plain concatenation.
- All `logging` calls (getter, setter, constructor logger), `print` in `main`: diagnostic side effects.
- IEEE-754 rounding of `* 1.8 + 32` and of the literal -273.15: the model works over exact reals.
- CheckedCelsius.Celsius.New: NaN and ±infinity are not modelled, since a `real` has no such values. In Python the guard `value < -273.15` is false for NaN and for +inf, so `Celsius(float('nan'))` and `Celsius(float('inf'))` succeed; a stored NaN is not below -273.15 but not ≥ -273.15 either.
- CheckedCelsius.Celsius.SetTemperature: NaN and ±infinity are not modelled; the source's guard accepts NaN and +inf and stores them.
- UncheckedCelsius.Celsius.SetTemperature: NaN and ±infinity are not modelled; the source's guard accepts NaN and +inf and stores them.
- src/main.py and main.py (argument parsing, logging setup), src/example/xterrabot.py (floating-point matrix demo), src/example/foo.py (logging and overload demo), setup.py (packaging): glue with nothing to state beyond the demonstration sequence modelled by the two `Demo` methods.

## Findings

| source | as written | input that shows it | evidently intended | confidence | as-written member | corrected member |
|---|---|---|---|---|---|---|
| src/example/celcius.py:28 | the constructor assigns `_temperature` directly, bypassing the absolute-zero check that the class documents | `Celsius(-300)` yields a holder at -300 °C | construction goes through the validating setter, as example/celcius.py:9 does | medium, not executed | `UncheckedCelsius.ConstructBelowAbsoluteZero` | `CheckedCelsius.Celsius.New` |
| src/example/cam_config.py:77 | lookup globs every file, although it is documented to return the JSON configuration file with the given name | entries `cam.txt` then `cam.json`: `cam` is listed, lookup returns `cam.txt` (`CamConfig.NonJsonEntryShadowsConfig`) | lookup over the `.json` entries only, so every listed name resolves to its JSON file | medium, not executed | `CamConfig.ConfigFilePath` | `CamConfig.JsonConfigFilePath` |
