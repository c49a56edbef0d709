# A verified model of the bike geometry tool's core

The application draws a bike and its rider from their geometry. It has four parts.

- **Browser state.** Three store slices keep the geometry as whole numbers:
  - `bike` holds millimetres, with the frame angles in tenths of a degree;
  - `shadowBike` is a second bike drawn behind the first, for comparison;
  - `rider` holds millimetres.
- **Forms and results.** Two forms validate what is typed and submit it to the slices. A selector turns the sizes an extraction service returns into slice payloads. A share token carries all three states in a link.
- **Extraction service.** It scales an uploaded chart image down before analysing it, and strips and cuts a pasted text.
- **Component catalogue.** The server side stores components with the following.
  - Each component has a lifecycle status: private, public, awaiting approval, published or rejected.
  - Each status maps to the object permissions held by four principals: the owner, the `staff` group, the `users` group and the anonymous user.
  - On every save, a serializer mixin computes those permissions from the status.

The model is split into modules:

- **Shared helpers:**
  - `Wrappers`: `Option` and `Result`.
  - `JsMath`: JavaScript's `Math.trunc` on exact reals.
  - `FixedPoint`: storing a value as whole millimetres or tenths of a degree, and showing it back.
  - `FormValues`: the form value conventions.
- **Browser state:**
  - `BikeSlice`, `ShadowBikeSlice` and `RiderSlice`: a class per slice whose reducer method updates the stored state.
  - `ShareToken`: a lexicographic order, the literal key lists proved sorted and complete, and a token codec with a round trip.
- **Forms and results:** `BikeSelect`, `BikeForm` and `RiderForm`.
- **Extraction service:** `BikeExtractor`.
- **Drawing:** `WheelModel`, a class for a wheel.
- **Component catalogue:**
  - `ComponentModel`: statuses, decimal angle fields, brand and component rows with their uniqueness constraints.
  - `Permissions`: the status table, the sixteen revocations, a `GuardianStore` class holding the object permissions, and the two findings below.

## Model

| member | source | states |
|---|---|---|
| JsMath.Trunc | app/bike/lib/bikeSlice.ts:102-129 | `Math.trunc`: the result is the integer next to x on the side of zero, strictly within 1 of x |
| JsMath.TruncExact | app/bike/lib/bikeSlice.ts:102-129 | truncation leaves x unchanged exactly when x is a whole number |
| JsMath.TruncOdd | app/bike/lib/bikeSlice.ts:121-125 | truncating a negative stem angle or handlebar rise mirrors truncating its magnitude |
| JsMath.TruncTowardZero | app/bike/lib/bikeSlice.ts:121-125 | truncation never changes the sign and never moves away from zero |
| FixedPoint.ShowStore | app/bike/lib/bikeSlice.ts:105-138 | storing then showing a value gives it back exactly when it is a whole millimetre, or a whole tenth of a degree for an angle |
| FixedPoint.StoreShow | app/bike/lib/bikeSlice.ts:105-138 | showing a stored whole number and storing it again gives the same number |
| FixedPoint.StoreError | app/bike/lib/bikeSlice.ts:105-108 | what storing loses is less than one step (1 mm, or 0.1 degree) and lies on the side of zero |
| BikeSlice.ToRecord | app/bike/lib/bikeSlice.ts:5-34 | the bike as a JavaScript object has exactly the 28 fields of the interface, each holding the state's value; it is the record `parseToken` rebuilds (ShareToken.RoundTrip) |
| BikeSlice.RecordRoundTrip | app/bike/lib/bikeSlice.ts:5-34 | the record loses nothing: rebuilding a state from its fields gives the state back |
| BikeSlice.InitialStateIsZero | app/bike/lib/bikeSlice.ts:36-65 | every field of `bikeInitialState` is 0 |
| BikeSlice.SetBikeState | app/bike/lib/bikeSlice.ts:102-129 | the state `setBike` leaves: each field is given by SetBikeFields, its whole numbers by SetBikeIsStored, and its round trip with `selectBike` by SelectAfterSet and SetAfterSelect |
| BikeSlice.SetBikeFields | app/bike/lib/bikeSlice.ts:102-129 | after `setBike` each field holds the payload's value truncated, with the three frame angles scaled by 10 first |
| BikeSlice.SetBikeIsStored | app/bike/lib/bikeSlice.ts:102-129 | `setBike` always leaves whole numbers in the store |
| BikeSlice.SelectBike | app/bike/lib/bikeSlice.ts:133-138 | `selectBike` divides exactly the three frame angles by 10 and shows every other field as stored |
| BikeSlice.SelectAfterSet | app/bike/lib/bikeSlice.ts:102-138 | selecting right after `setBike(p)` gives back p if and only if every field of p is exact at its precision |
| BikeSlice.SelectedStoresExactly | app/bike/lib/bikeSlice.ts:133-138 | what `selectBike` shows of a stored state is always exact at each field's precision |
| BikeSlice.SetAfterSelect | app/bike/lib/bikeSlice.ts:102-138 | storing what `selectBike` shows gives back the stored state unchanged |
| BikeSlice.BikeStore.constructor | app/bike/lib/bikeSlice.ts:36-69 | the slice starts from the initial state and holds whole numbers |
| BikeSlice.BikeStore.SelectRawBike | app/bike/lib/bikeSlice.ts:139 | `selectRawBike` returns the stored state itself, whose fields are whole numbers |
| BikeSlice.BikeStore.SetBike | app/bike/lib/bikeSlice.ts:71-130 | the reducer replaces the state by the payload stored field by field, and the slice invariant holds after it |
| ShadowBikeSlice.InitialStateIsZero | ui/app/bike/lib/shadowBikeSlice.ts:6-35 | every field of the shadow bike's initial state is 0 |
| ShadowBikeSlice.SetShadowBikeState | ui/app/bike/lib/shadowBikeSlice.ts:42-97 | the state `setShadowBike` leaves: each field is given by SetShadowBikeFields, its whole numbers by SetShadowBikeIsStored, and its round trip with the selector by SelectAfterSetShadow |
| ShadowBikeSlice.SetShadowBikeFields | ui/app/bike/lib/shadowBikeSlice.ts:42-97 | every field but `frontCenter` holds the payload's stored value; `frontCenter`, which the reducer never writes, keeps its prior value |
| ShadowBikeSlice.SetShadowBikeIsStored | ui/app/bike/lib/shadowBikeSlice.ts:71-97 | a state of whole numbers stays one of whole numbers |
| ShadowBikeSlice.SelectShadowBike | ui/app/bike/lib/shadowBikeSlice.ts:101-106 | only the three frame angles are divided by 10 |
| ShadowBikeSlice.SelectAfterSetShadow | ui/app/bike/lib/shadowBikeSlice.ts:42-106 | the payload comes back exactly when its written fields are exact and its `frontCenter` equals the one already stored |
| ShadowBikeSlice.FrontCenterNeverWritten | ui/app/bike/lib/shadowBikeSlice.ts:42-97 | no sequence of `setShadowBike` calls changes `frontCenter` |
| ShadowBikeSlice.SetShadowBikeCorrected | ui/app/bike/lib/shadowBikeSlice.ts:42-97 | with the `frontCenter` line the main reducer has (app/bike/lib/bikeSlice.ts:111), every field holds the payload's stored value |
| ShadowBikeSlice.SelectAfterSetShadowCorrected | ui/app/bike/lib/shadowBikeSlice.ts:42-106 | with every field written, the payload comes back if and only if each of its fields is exact, whatever the state held before |
| ShadowBikeSlice.ShadowBikeStore.constructor | ui/app/bike/lib/shadowBikeSlice.ts:6-39 | the slice starts from its initial state |
| ShadowBikeSlice.ShadowBikeStore.SetShadowBike | ui/app/bike/lib/shadowBikeSlice.ts:41-98 | the reducer stores the payload, keeps `frontCenter`, and preserves the whole-number invariant |
| RiderSlice.InitialStateIsZero | ui/app/bike/lib/riderSlice.ts:13-19 | every length of the initial rider is 0 |
| RiderSlice.SetRiderState | ui/app/bike/lib/riderSlice.ts:33-37 | the state `setRider` leaves: each length is given by SetRiderFields, its whole millimetres by SetRiderIsStored, and its round trip with `selectRider` by SelectAfterSetRider and SetAfterSelectRider |
| RiderSlice.SetRiderFields | ui/app/bike/lib/riderSlice.ts:33-37 | after `setRider` each length holds the payload's centimetres times 10, truncated |
| RiderSlice.SetRiderIsStored | ui/app/bike/lib/riderSlice.ts:33-37 | `setRider` leaves whole millimetres |
| RiderSlice.SelectRider | ui/app/bike/lib/riderSlice.ts:41-47 | `selectRider` shows every length divided by 10 |
| RiderSlice.SelectAfterSetRider | ui/app/bike/lib/riderSlice.ts:33-47 | selecting after `setRider(p)` gives p back if and only if every length is a whole millimetre |
| RiderSlice.SetAfterSelectRider | ui/app/bike/lib/riderSlice.ts:33-47 | storing what `selectRider` shows gives back the stored state |
| RiderSlice.RiderStore.constructor | ui/app/bike/lib/riderSlice.ts:13-23 | the slice starts from the initial rider |
| RiderSlice.RiderStore.SetRider | ui/app/bike/lib/riderSlice.ts:25-38 | the reducer replaces the rider by the stored payload and keeps the whole-number invariant |
| ShareToken.Less | app/bike/lib/useBikeGeometry.ts:57-64 | the UTF-16 code-unit order `toSorted` uses; LessIrreflexive, LessTransitive and LessTotal make it a strict total order |
| ShareToken.LessIrreflexive | app/bike/lib/useBikeGeometry.ts:57-64 | the code-unit order of `toSorted` never puts a key before itself |
| ShareToken.LessTransitive | app/bike/lib/useBikeGeometry.ts:57-64 | the order is transitive |
| ShareToken.LessTotal | app/bike/lib/useBikeGeometry.ts:57-64 | any two different keys are ordered one way or the other |
| ShareToken.SortedDistinct | app/bike/lib/useBikeGeometry.ts:57-64 | a strictly sorted key list has no repeated key |
| ShareToken.BikeKeysSorted | app/bike/lib/useBikeGeometry.ts:57-59 | the bike key list is strictly sorted, as `toSorted` leaves it |
| ShareToken.BikeKeysComplete | app/bike/lib/useBikeGeometry.ts:57-59 | every bike field is in the bike key list |
| ShareToken.RiderKeysSorted | app/bike/lib/useBikeGeometry.ts:62-64 | the rider key list is strictly sorted |
| ShareToken.RiderKeysComplete | app/bike/lib/useBikeGeometry.ts:62-64 | every rider field is in the rider key list |
| ShareToken.Values | app/bike/lib/useBikeGeometry.ts:66-71 | the value array of a bike, the shadow bike or the rider has one entry per key, the field of that key |
| ShareToken.Encode | app/bike/lib/useBikeGeometry.ts:73-81 | `JSON.stringify` then `btoa` as an injective codec: Decode inverts it (DecodeEncode, EncodeDecode) |
| ShareToken.TokenFor | app/bike/lib/useBikeGeometry.ts:51-82 | the token always decodes, to exactly the three value arrays in key order |
| ShareToken.CreateToken | app/bike/lib/useBikeGeometry.ts:51-82 | every created token decodes, to 28 values for each bike and 5 for the rider |
| ShareToken.Decode | app/bike/lib/useBikeGeometry.ts:89-91 | a token that decodes is the encoding of what it decodes to |
| ShareToken.DecodeEncode | app/bike/lib/useBikeGeometry.ts:74-91 | decoding an encoded payload gives the payload back |
| ShareToken.EncodeDecode | app/bike/lib/useBikeGeometry.ts:74-91 | encoding what a token decodes to gives the token back |
| ShareToken.ParseFor | app/bike/lib/useBikeGeometry.ts:84-131 | parsing fails, as the `catch` makes it, exactly when the token does not decode |
| ShareToken.Assemble | app/bike/lib/useBikeGeometry.ts:103-125 | the `reduce` of `parseToken`; what each key holds, and which fields exist, is stated by AssemblePositions |
| ShareToken.AssemblePositions | app/bike/lib/useBikeGeometry.ts:103-125 | the `reduce` gives each of the keys, and only they, the value at the key's position, or none past the array's end |
| ShareToken.AssembleValues | app/bike/lib/useBikeGeometry.ts:103-125 | an array that lists each key's value assembles to the record of those values |
| ShareToken.ParseToken | app/bike/lib/useBikeGeometry.ts:84-131 | `null` exactly when the token does not decode; RoundTrip states what it gives for a created token |
| ShareToken.BikeRecordFilled | app/bike/lib/useBikeGeometry.ts:103-117 | the bike record `parseToken` rebuilds from a complete array holds the state's value in each of the 28 fields |
| ShareToken.ParsePositions | app/bike/lib/useBikeGeometry.ts:94-125 | a parsed token gives every bike, shadow and rider field the value at its position in the sorted key list |
| ShareToken.RoundTripFor | app/bike/lib/useBikeGeometry.ts:51-131 | for key lists holding every field, parsing a created token gives back all three states |
| ShareToken.RoundTrip | app/bike/lib/useBikeGeometry.ts:51-131 | `parseToken(createToken(bike, shadow, rider))` returns the records of the bike, the shadow bike and the rider (BikeSlice.ToRecord), every field defined: nothing is lost |
| BikeSelect.ConvertValue | app/bike/components/BikeSelect.tsx:67-77 | a missing field or value gives 0; centimetres are multiplied by 10; any other unit is taken as millimetres |
| BikeSelect.ConvertValueZero | app/bike/components/BikeSelect.tsx:67-77 | the result is 0 if and only if the field or value is missing |
| BikeSelect.ConvertValueUnits | app/bike/components/BikeSelect.tsx:72-75 | x cm converts to the same value as 10x mm |
| BikeSelect.ConvertWheelSize | app/bike/components/BikeSelect.tsx:79-98 | the result is always 0 or one of the four nominal rim diameters |
| BikeSelect.ConvertWheelSizeFound | app/bike/components/BikeSelect.tsx:82-97 | the result is non-zero if and only if the value is present and one of the listed wheel sizes |
| BikeSelect.ConvertWheelSizeIgnoresUnit | app/bike/components/BikeSelect.tsx:79-98 | the wheel size does not depend on the unit given |
| BikeSelect.ConvertField | app/bike/components/BikeSelect.tsx:103-130 | a wheel diameter goes through `convertWheelSize`, every other field through `convertValue`, as TransformBikeFields states |
| BikeSelect.TransformBike | app/bike/components/BikeSelect.tsx:101-131 | one size of the result as a bike payload; TransformBikeFields and TransformWheelsListed state its fields |
| BikeSelect.TransformBikeFields | app/bike/components/BikeSelect.tsx:100-132 | a transformed size keeps its name and gets every bike field from its converted measurement |
| BikeSelect.TransformWheelsListed | app/bike/components/BikeSelect.tsx:100-132 | both wheel diameters of a transformed size are 0 or a nominal rim diameter |
| BikeSelect.TransformBikeResults | app/bike/components/BikeSelect.tsx:100-102 | one result per extracted size |
| BikeSelect.TransformBikeResultsAt | app/bike/components/BikeSelect.tsx:100-132 | the i-th result is the transformation of the i-th size and keeps its name |
| BikeSelect.TextAccepted | app/bike/components/BikeSelect.tsx:52-61 | the text form accepts 1 to 3000 characters; BikeExtractor.FormTextReachesService and BlankTextAccepted state what such a text becomes at the service |
| BikeSelect.TransformBikeResultsConcat | app/bike/components/BikeSelect.tsx:100-102 | transforming two lists one after the other is transforming their concatenation |
| FormValues.Display | app/bike/components/BikeForm.tsx:318-325 | a value is shown empty if and only if it is 0, and otherwise as itself |
| FormValues.Submitted | app/bike/components/BikeForm.tsx:331-340 | an empty field submits 0, any other submits its value |
| FormValues.SubmittedDisplay | app/bike/components/BikeForm.tsx:318-340 | submitting what is shown gives the value back |
| FormValues.DisplaySubmitted | app/bike/components/BikeForm.tsx:318-340 | showing a submitted value gives it back, except that a typed 0 is shown empty |
| FormValues.Overlay | app/bike/components/BikeForm.tsx:331-340 | a field the form sent replaces the current value; any other keeps it |
| BikeForm.BikeRule | app/bike/components/BikeForm.tsx:38-306 | the three frame angles accept values whose hundredfold is whole, over exact reals; every other field whole millimetres; 0 is within every range |
| BikeForm.OnlyTwoSigned | app/bike/components/BikeForm.tsx:225-269 | only the stem angle and the handlebar rise accept negative values |
| BikeForm.RuleCeilings | app/bike/components/BikeForm.tsx:141-149 | no field accepts more than 2000, and only the wheelbase accepts more than 1000 |
| BikeForm.ZeroAccepted | app/bike/components/BikeForm.tsx:38-306 | every field accepts being empty or 0 |
| BikeForm.AcceptedLengthStored | app/bike/components/BikeForm.tsx:38-306 | an accepted length is stored without loss |
| BikeForm.AcceptedStoredInRange | app/bike/components/BikeForm.tsx:38-306 | what an accepted value is stored as stays within the field's range, scaled by 10 for the angles |
| BikeForm.AngleHundredthLost | app/bike/components/BikeForm.tsx:72-82 | the form accepts a head tube angle of 73.25, which the slice stores as 732 and shows back as 73.2 |
| BikeForm.TenthsRule | app/bike/components/BikeForm.tsx:72-82 | the rule table with the angles checked at one decimal, the precision the store keeps; every range is unchanged |
| BikeForm.TenthsRuleRefusesHundredths | app/bike/components/BikeForm.tsx:72-82 | the one-decimal rule refuses the 73.25 degrees the table accepts |
| BikeForm.TenthsAccepted | app/bike/components/BikeForm.tsx:38-306 | what the one-decimal rule accepts passes the table as written and has at most one decimal on an angle |
| BikeForm.TenthsRuleRoundTrip | app/bike/components/BikeForm.tsx:331-342 | with one-decimal angles, every accepted submission comes back from the store exactly, with no condition beyond the rules |
| BikeForm.DefaultValues | app/bike/components/BikeForm.tsx:318-325 | the form starts with every field, empty where the bike has 0, otherwise the bike's value |
| BikeForm.Submit | app/bike/components/BikeForm.tsx:331-340 | the submitted fields replace the bike's, with empty as 0, and the others are kept |
| BikeForm.SubmitDefaults | app/bike/components/BikeForm.tsx:318-340 | submitting the untouched form gives back the bike it was filled from |
| BikeForm.Clear | app/bike/components/BikeForm.tsx:349-355 | clearing dispatches the initial bike |
| BikeForm.ClearStoresInitial | app/bike/components/BikeForm.tsx:349-355 | after clearing, the slice holds the initial state |
| BikeForm.SubmittedExact | app/bike/components/BikeForm.tsx:38-306 | an accepted value, with an angle in tenths, survives the slice's storage |
| BikeForm.SubmitFieldExact | app/bike/components/BikeForm.tsx:331-342 | each field of a submission over what is selected survives storage |
| BikeForm.SubmitStoresExactly | app/bike/components/BikeForm.tsx:331-342 | a whole submission of such values survives storage |
| BikeForm.SubmitStoreSelect | app/bike/components/BikeForm.tsx:331-342 | the form round trip: the store gives back exactly what was submitted |
| RiderForm.RiderRule | app/bike/components/RiderForm.tsx:32-94 | every rider length starts at 0; only the foot length accepts tenths of a centimetre |
| RiderForm.RiderCeilings | app/bike/components/RiderForm.tsx:48-71 | the upper leg and the foot are limited to 100 cm, the other lengths to 200 cm |
| RiderForm.AcceptedRiderExact | app/bike/components/RiderForm.tsx:32-94 | an accepted length is a whole millimetre and is stored within 0 to 2000 mm |
| RiderForm.DefaultValues | app/bike/components/RiderForm.tsx:106-113 | the form starts with every rider field, empty for 0 |
| RiderForm.Submit | app/bike/components/RiderForm.tsx:120-131 | submitted fields replace the rider's, the others are kept |
| RiderForm.SubmitDefaults | app/bike/components/RiderForm.tsx:106-131 | submitting the untouched form gives the rider back |
| RiderForm.SubmitFieldExact | app/bike/components/RiderForm.tsx:120-131 | each field of an accepted submission survives storage |
| RiderForm.SubmitStoreSelect | app/bike/components/RiderForm.tsx:120-131 | an accepted submission comes back from the rider slice exactly |
| BikeExtractor.Scale | api/bike_extractor.py:43-48 | `int(side * (max_size / longer))`: ScaleRounding makes it the floor of the exact quotient, ScaleShrinks and ScaleBounded bound it |
| BikeExtractor.ScaleRounding | api/bike_extractor.py:43-48 | the integer cast of the scaled side is the floor of the exact quotient |
| BikeExtractor.ScaleShrinks | api/bike_extractor.py:43-48 | scaling by a ratio of at most 1 never enlarges a side |
| BikeExtractor.ScaleBounded | api/bike_extractor.py:43-48 | the shorter side scaled never exceeds the new longer side |
| BikeExtractor.ScaleZero | api/bike_extractor.py:43-48 | a scaled side is 0 exactly when the exact product is below the divisor |
| BikeExtractor.Resize | api/bike_extractor.py:40-55 | an oversize image gets its longer side (the height on a tie) set to `max_size`; an image that fits is kept |
| BikeExtractor.ResizeUnchanged | api/bike_extractor.py:40-55 | the size changes if and only if a side exceeds `max_size` |
| BikeExtractor.ResizeFits | api/bike_extractor.py:40-48 | after resizing, both sides are at most `max_size` |
| BikeExtractor.ResizeNeverEnlarges | api/bike_extractor.py:40-48 | no side grows |
| BikeExtractor.ResizeKeepsRatio | api/bike_extractor.py:43-48 | the shorter side is the floor of its side times `max_size` over the longer side |
| BikeExtractor.ResizeEmpty | api/bike_extractor.py:43-48 | a side becomes 0, making an image PIL cannot build, exactly when the image is very elongated |
| BikeExtractor.ResizeLandscape | api/bike_extractor.py:20-48 | a 4000 x 3000 chart is scaled to 768 x 576 |
| BikeExtractor.IsSpace | api/bike_extractor.py:100 | the characters `str.strip()` removes; IsSpaceExamples fixes its edges |
| BikeExtractor.IsSpaceExamples | api/bike_extractor.py:100 | the space, the tab, the no-break and the ideographic space are whitespace; a letter, the zero-width space and the Mongolian vowel separator are not |
| BikeExtractor.LeadingSpace | api/bike_extractor.py:100 | counts the whitespace in front: all of it is whitespace and the next character is not |
| BikeExtractor.TrailingSpace | api/bike_extractor.py:100 | the same at the end of the text |
| BikeExtractor.Strip | api/bike_extractor.py:100 | `strip()` gives the text between the leading and trailing whitespace; it is trimmed, and empty exactly for an all-blank text |
| BikeExtractor.StripUnique | api/bike_extractor.py:100 | whitespace around a trimmed text strips back to that text |
| BikeExtractor.StripIdempotent | api/bike_extractor.py:100 | stripping twice is stripping once |
| BikeExtractor.PyPrefix | api/bike_extractor.py:101 | Python's `s[:n]`: a prefix of length n, clamped to the text, and counted from the end when n is negative |
| BikeExtractor.PyPrefixIdempotent | api/bike_extractor.py:101-111 | cutting twice to the same length is cutting once |
| BikeExtractor.PrepareText | api/bike_extractor.py:100-101 | the prepared text is a prefix of the stripped text, at most `max_size` long, equal to it if and only if it fits, and starting with a non-blank |
| BikeExtractor.PromptTextPrepared | api/bike_extractor.py:100-111 | the prompt's second cut changes nothing |
| BikeExtractor.AcceptedTextOnlyStripped | api/models.py:4-7 | a request text within `MAX_TEXT_LENGTH` is only stripped at the default limit, never cut |
| BikeExtractor.CutAfterStrip | api/bike_extractor.py:100-101 | cutting after stripping can leave trailing whitespace |
| BikeExtractor.FormTextReachesService | api/bike_extractor.py:100-101 | a text the form accepts reaches the service stripped and never cut, and is sent empty if and only if it is all whitespace |
| BikeExtractor.BlankTextAccepted | app/bike/components/BikeSelect.tsx:52-61 | a text of blanks passes the text form yet is prepared to the empty text |
| WheelModel.Wheel.constructor | app/src/utils/wheel.ts:5-11 | the radius is half the given diameter and the tire width is kept |
| WheelModel.Wheel.RadiusWithTire | app/src/utils/wheel.ts:13-15 | the tire adds its width to the rim radius |
| WheelModel.OuterRadius | app/src/utils/wheel.ts:5-15 | a wheel's outer radius is half the rim diameter plus the tire width |
| WheelModel.DefaultWheel | app/src/utils/wheel.ts:5-15 | a wheel built with the defaults has radius 0 with or without its tire |
| WheelModel.RoadWheel | app/src/utils/wheel.ts:5-15 | a 622 mm rim with a 28 mm tire reaches 339 mm |
| ComponentModel.ParseStatus | api/atb/bike/models.py:38-43 | a string maps to a status only when it is that status's stored value |
| ComponentModel.ParseValue | api/atb/bike/models.py:38-43 | each status's stored value maps back to that status |
| ComponentModel.ExactlyFiveValues | api/atb/bike/models.py:38-43 | a string is a status value if and only if it is one of the five |
| ComponentModel.ValuesDistinct | api/atb/bike/models.py:38-43 | two statuses never share a stored value |
| ComponentModel.NewComponent | api/atb/bike/models.py:45-55 | a component created without a status is private; every other field is kept |
| ComponentModel.AngleField | api/atb/bike/models.py:9-28 | an angle field is bounded to 0..90, with 4 digits and 2 places unless given |
| ComponentModel.DecimalAccepts | api/atb/bike/models.py:9-28 | the `DecimalField` check of range, places and digits; AngleValues states which values the default angle field accepts |
| ComponentModel.AngleValues | api/atb/bike/models.py:18-26 | the default angle field accepts x if and only if 0 <= x <= 90 and x has at most two decimals |
| ComponentModel.AngleExamples | api/atb/bike/models.py:18-26 | 45.5 is accepted, 90.01 and 12.345 are refused |
| ComponentModel.InsertBrand | api/atb/bike/models.py:32 | a brand is added if and only if its name has 1 to 100 characters and is not taken; it is then appended |
| ComponentModel.InsertBrandUnique | api/atb/bike/models.py:32 | adding brands keeps their names unique |
| ComponentModel.CheckFields | api/atb/bike/models.py:46-51 | a row's fields pass if and only if model, size and MPN are within 100 characters, the MPN is non-empty when present, and the GTIN is absent or below 10^14 |
| ComponentModel.GtinValid | api/atb/bike/models.py:48-50 | a GTIN is absent or a non-negative number below 10^14; CheckFields states it as part of the row check |
| ComponentModel.SameBrandMpnSize | api/atb/bike/models.py:61-66 | the unique constraint on brand, MPN and size, where NULLs never compare equal; NullMpnNeverClashes and DuplicateRefused fix both sides |
| ComponentModel.TableValid | api/atb/bike/models.py:45-66 | every row passes its fields and no two rows clash; InsertKeepsValid shows an insert keeps it |
| ComponentModel.Insert | api/atb/bike/models.py:45-66 | a row is added only when its fields pass, its GTIN is free, and no row has its brand, MPN and size |
| ComponentModel.InsertAccepts | api/atb/bike/models.py:45-66 | the insert succeeds if and only if all three conditions hold |
| ComponentModel.ClashSymmetric | api/atb/bike/models.py:48-66 | a clash is symmetric |
| ComponentModel.InsertKeepsValid | api/atb/bike/models.py:48-66 | inserting into a table of valid, non-clashing rows keeps it so |
| ComponentModel.NullMpnNeverClashes | api/atb/bike/models.py:61-66 | two rows with a NULL MPN and the same brand and size are both accepted, as NULLs never compare equal |
| ComponentModel.DuplicateRefused | api/atb/bike/models.py:61-66 | a second row with the same brand, MPN and size is refused |
| Permissions.Order | api/atb/bike/serializers.py:14-29 | the four principals, in the order the revoke loop uses |
| Permissions.Lower | api/atb/bike/serializers.py:19-23 | lower-casing keeps the length, turns each ASCII capital into its lower-case letter and keeps every other character |
| Permissions.Codename | api/atb/bike/serializers.py:19-23 | each key is the permission's prefix followed by the lower-cased model name |
| Permissions.CodenamesDistinct | api/atb/bike/serializers.py:19-24 | two keys of one model are equal if and only if their permissions are |
| Permissions.CodenameIgnoresCase | api/atb/bike/serializers.py:19-23 | `Bike` and `BIKE` give the same key |
| Permissions.PermKeys | api/atb/bike/serializers.py:19-24 | the four keys in the dictionary's order |
| Permissions.StatusTable | api/atb/bike/serializers.py:33-102 | the `match status`: every list names only the four principals, at most three of them; the tables per status are stated case by case below |
| Permissions.PermissionsMap | api/atb/bike/serializers.py:13-104 | the map always has the four keys of the model |
| Permissions.PermissionsMapSize | api/atb/bike/serializers.py:19-24 | the map has exactly four keys |
| Permissions.PermissionsMapLists | api/atb/bike/serializers.py:32-104 | each key holds its permission's list from the status table |
| Permissions.UnknownStatusGrantsNothing | api/atb/bike/serializers.py:19-33 | an absent or unknown status leaves the four lists empty |
| Permissions.PrivateTable | api/atb/bike/serializers.py:34-48 | a private component: only the owner holds each permission |
| Permissions.PublicTable | api/atb/bike/serializers.py:49-65 | a public component: the anonymous user, the users group and staff view it, and the owner is not granted view; only the owner adds, changes and deletes |
| Permissions.AwaitingSameAsRejected | api/atb/bike/serializers.py:66-85 | awaiting approval and rejected give the same map: staff moderates, the owner views and deletes |
| Permissions.PublishedTable | api/atb/bike/serializers.py:86-102 | a published component: the anonymous user, the users group and staff view it, and the owner is not granted view; only staff adds, changes and deletes |
| Permissions.EveryStatusViewable | api/atb/bike/serializers.py:34-102 | under each of the five statuses someone can view the component |
| Permissions.PublicOnlyViews | api/atb/bike/serializers.py:34-102 | the anonymous user and the users group hold a permission if and only if it is view and the status is public or published |
| Permissions.StaffModerates | api/atb/bike/serializers.py:66-102 | staff changes the component if and only if it is awaiting approval, rejected or published |
| Permissions.RevokeSchedule | api/atb/bike/serializers.py:26-30 | creation issues sixteen revocations |
| Permissions.RevokeOnce | api/atb/bike/serializers.py:26-30 | each of the sixteen (key, principal) pairs is revoked exactly once |
| Permissions.InSchedule | api/atb/bike/serializers.py:26-30 | every key paired with every principal is among the revocations |
| Permissions.Granted | api/atb/bike/serializers.py:10-13 | the grants a map hands out are all on the object, each with a key of the map and a principal of its list |
| Permissions.PermissionsMapGranted | api/atb/bike/serializers.py:33-104 | every principal a status list names is granted its permission on the object |
| Permissions.SaveAsWritten | api/atb/bike/serializers.py:26-104 | a save as written leaves the grants on every other object as they were, and every principal the status lists holds its permission afterwards |
| Permissions.SaveCleared | api/atb/bike/serializers.py:26-104 | the same for a save that clears the sixteen pairs first |
| Permissions.SaveAsWrittenIdempotent | api/atb/bike/serializers.py:26-104 | saving again with the same status (an update) leaves the grants a save gave |
| Permissions.SaveClearedIdempotent | api/atb/bike/serializers.py:26-104 | a clearing save repeated with the same status gives the same grants as one save |
| Permissions.GuardianStore.constructor | api/atb/bike/serializers.py:13 | a store starts with the given grants and no revocations |
| Permissions.GuardianStore.RemovePerm | api/atb/bike/serializers.py:30 | `remove_perm` drops one grant and nothing else |
| Permissions.GuardianStore.RevokeFrom | api/atb/bike/serializers.py:29-30 | the inner loop revokes one key from each principal in order |
| Permissions.GuardianStore.RevokeAll | api/atb/bike/serializers.py:26-30 | the outer loop revokes every key, key by key |
| Permissions.GuardianStore.GetPermissionsMap | api/atb/bike/serializers.py:13-104 | returns the status map; on creation the sixteen pairs are revoked first, and otherwise nothing changes |
| Permissions.GuardianStore.Save | api/atb/bike/serializers.py:13-104 | a save as written: on creation the sixteen revocations are issued, otherwise none; then the map's grants are added |
| Permissions.GuardianStore.SaveCorrected | api/atb/bike/serializers.py:26-30 | a save that clears the sixteen pairs every time before adding the grants |
| Permissions.SaveClearedFollowsStatus | api/atb/bike/serializers.py:26-104 | after a clearing save, a principal holds a permission if and only if the status table lists it |
| Permissions.StaleGrantSurvivesUpdate | api/atb/bike/serializers.py:26-30 | created private, updated to public and then back to private, a component stays viewable by the anonymous user |
| Permissions.MissingStatusLocksOutOwner | api/atb/bike/serializers.py:32 | created without a status, a component is stored private, yet no grant at all is issued |
| Permissions.StoredStatusGrantsOwner | api/atb/bike/serializers.py:32-48 | built from the stored status, a component created without one gives its owner every permission |

## Left out

- **Numbers and encodings**
  - Floating point: values are exact reals. `Math.trunc` is exact, `value.toString().includes(".")` is modelled as "the value times the step is whole", and NaN is not modelled. A product that JavaScript prints in exponent form (1e-9 times 100 prints "1e-7", with no ".") passes the form but is refused by the model. The other way round, a product that rounds off a whole number is refused in JavaScript but accepted by the model: 73.1 times 100 is 7309.999999999999 in doubles, so a head tube angle of 73.1 is refused with "Max precision is 2 decimal places" (so are 64.1 and 1.1), while `BikeRule` and `Accepts` accept it.
  - `btoa` and `atob` over `JSON.stringify` are replaced by an injective codec of value arrays. Only decoding failure and the round trip are modelled, not the text of the token.
  - BikeExtractor.Resize: the floor is exact. The source's `int(height * ratio)` first rounds the ratio to a float, so 1070 x 535 gets a height of 383 in the source and 384 in the model.
  - The form's length limits are counted in characters rather than UTF-16 code units. There is no Unicode normalisation.
  - `Lower` lower-cases ASCII letters only. The model names are ASCII class names.
- **Browser state and forms**
  - ShadowBikeSlice.SetShadowBike: the payload's type `BikeState` comes from `ui/app/bike/lib/bikeSlice.ts`, and ui/app/bike/lib/bikeSlice.ts is not part of this model. The model gives the payload the shadow state's fields, as the `satisfies BikeState` check on the initial state (ui/app/bike/lib/shadowBikeSlice.ts:6-35) implies.
  - Immer's draft writes are modelled as one record update.
  - The `isShadow` path of the bike form dispatches to the shadow slice. Only its main-slice path is modelled.
  - ShareToken: the key lists are written out literally and proved sorted and complete, not computed with `toSorted`.
  - ShareToken: `createToken` and `parseToken` are typed with the `BikeState` and the rider keys that `useBikeGeometry.ts` takes from `./bikeSlice`, `./shadowBikeSlice` and `./riderSlice` (app/bike/lib/useBikeGeometry.ts:7-11). The model types both bikes as `BikeSlice.BikeState`, the 28 fields of app/bike/lib/bikeSlice.ts, and the rider with `RiderSlice`. app/bike/lib/shadowBikeSlice.ts and app/bike/lib/riderSlice.ts are not part of this model. The round trip is proved for these types, not for `ShadowBikeSlice.ShadowBikeState`. A shadow state of that type would lose `stemSteererHeight` in the token, and its `forkSag` would come back undefined.
  - A server result that omits a key is not modelled.
- **Extraction service**
  - The image itself, PIL and the Gemini calls. The `except` branch that returns `None` is not modelled.
  - `cache.py` and the HTTP views.
- **Component catalogue**
  - CheckFields: the serializer's `CharField` trims whitespace before its checks, so it also refuses an MPN of only spaces. The model checks the stored string, without that trimming.
  - Decimal validation counts digits of the value, not of the written form. Trailing zeros and Django's special case when the digits equal the places are not modelled.
  - Each component kind has its own table. One table is modelled.
  - `Group.objects.get_or_create` returns a `(group, created)` pair (api/atb/bike/serializers.py:15-16), and as written that pair is what `remove_perm` and the lists receive. Both findings read `staff` and `users` as the group, `get_or_create(...)[0]`. With the pair, `remove_perm` on a created component fails; that failure is not modelled.
  - Principals are opaque ids, and a missing owner (`owner` is nullable) is not modelled.
  - `Brand` has no owner, so the mixin on `BrandSerializer` is left out. The Frame, Fork, Saddle, Seatpost, Crank, Chainring, Stem and Handlebar serializers carry the mixin too (api/atb/bike/serializers.py:123-233), but their models (api/atb/bike/models.py:99-184) have neither `owner` nor `status`, so the read of `self.instance.owner` (api/atb/bike/serializers.py:14) finds no field there; these are left out as well. Only the permissions of models deriving from `Component` are modelled.
  - The step of `rest_framework_guardian` that applies the map is not part of this model. `Save` takes it that the step adds each listed grant (`assign_perm`) and revokes nothing.
  - Concurrent saves of one component are not modelled.

## Findings

| source | as written | input that shows it | evidently intended | confidence | as-written member | corrected member |
|---|---|---|---|---|---|---|
| api/atb/bike/serializers.py:26-30 | the sixteen grants are revoked only when `created`, that is on an object that holds none yet | create a component as private, update it to public (the anonymous user gets `view`), then update it back to private | clear the old grants on every save, so the grants follow the new status | not executed; medium, as it rests on the library's grant step only adding and on `staff` and `users` being the groups | Permissions.StaleGrantSurvivesUpdate | Permissions.SaveClearedFollowsStatus |
| api/atb/bike/serializers.py:32 | the map is built from `validated_data.get("status")`, `None` when the request leaves the status out | create a component without a status: it is stored private, yet no grant is issued, even to the owner | build the map from the status the component is stored with | not executed; medium, as it rests on the status field being optional in the request | Permissions.MissingStatusLocksOutOwner | Permissions.StoredStatusGrantsOwner |
| app/bike/components/BikeForm.tsx:72-82 | the angle rule lets through two decimals (`n * 100` whole), while `setBike` keeps tenths of a degree (app/bike/lib/bikeSlice.ts:105-108) | a head tube angle of 73.25 passes the form and comes back from the store as 73.2 (in doubles the same rule also refuses one-decimal angles such as 73.1, see Left out) | check the three angles at one decimal, the precision the store keeps | not executed; low, as the message asks for two decimals on purpose, so the store may be the half meant to change | BikeForm.AngleHundredthLost | BikeForm.TenthsRuleRoundTrip |
| ui/app/bike/lib/shadowBikeSlice.ts:42-97 | `setShadowBike` destructures and writes every field but `frontCenter`, which the main reducer writes (app/bike/lib/bikeSlice.ts:111) and the shadow form edits (ui/app/bike/components/BikeForm.tsx:123, 300) | submit a shadow bike with a front center of 600: the shadow state keeps 0 | write `frontCenter` like every other field | not executed; medium | ShadowBikeSlice.FrontCenterNeverWritten | ShadowBikeSlice.SelectAfterSetShadowCorrected |
