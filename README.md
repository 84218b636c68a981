# learnhub in Dafny

learnhub is a learning platform built with Next.js: students enrol in courses, work through lessons made of videos and documents, track their progress, earn certificates, and post in a community forum. Teachers upload course material and administrators manage users. This project models the platform's core logic as Dafny datatypes, functions and classes, and proves properties of that model.

There is one Dafny module per source file of the core:

- `Auth` models `lib/auth.ts`: login with the per-account lockout after three failures, and registration that refuses a taken email.
- `Certificates` models `lib/certificates.ts`: issuing certificates, lookup by id, and verification by certificate number.
- `ProgressTracking` models `lib/progress-tracking.ts`: per-user course progress, lesson completion and percentages.
- `CourseMaterials` models `lib/course-materials.ts`: the seeded material table, lookups by course and lesson, the storage-URL rule, and adding a material.
- `Courses` models `lib/courses.ts`: the course catalog, search, filter and sort.
- `Community` models `lib/community.ts`: the post search, category filter and sort, and the relative-time labels.
- `RecommendationEngine` models `lib/recommendation-engine.ts`: scoring and ranking courses for a learner.
- `VideoHosting` models `lib/video-hosting.ts`: the in-memory video store.
- `FileStorage` models `lib/file-storage.ts`: file classification, validation and storage paths.
- `Middleware` models `middleware.ts`: which paths need the `auth_token` cookie. The role is not checked there.
- `ChatbotRoute`, `CoursesRoute`, `UploadRoute` and `MaterialsUploadRoute` model the API route handlers under `app/api/`.
- `CourseContent`, `YouTubePlayer`, `CourseMaterialUploader`, `NewPostDialog`, `RegisterForm`, `ProtectedRoute` and `UserManagement` model the state and decisions of the React components under `components/`.

Four shared modules support them:

- `Wrappers` holds `Option`, the stand-in for `undefined` and `null`.
- `Strings` models the JavaScript string operations used: lower-casing, `includes`, `trim`, `split` and decimal printing.
- `ObjectKeys` models the order in which JavaScript visits an object's keys: array indices first in numeric order, then the other keys in insertion order.
- `Sorting` models `Array.prototype.sort` as a stable sort. Its contract states stability as "each class of equal keys keeps its input order".

Objects that the source updates in place are Dafny classes with `modifies` clauses. Examples are the progress tracker, the certificate manager, the video store, the material store and the component states. Their maps and lists are `map` and `seq` fields. Pure helpers are functions, each with lemmas about it.

## Behaviour of the code worth noting

- A file name without a "." is classified by its whole name, so a bare `mp4` is a video (`FileStorage`).
- A missing material description arrives as `null`. zod's `.optional()` does not accept `null`, so such an upload is rejected (`MaterialsUploadRoute`).
- The video title fallback is overridden by the metadata spread, and the store keeps that record as written; see Findings.

## Model

| member | source | states |
|---|---|---|
| Auth.Attempt | learnhub/lib/auth.ts:63-110 | one `login` attempt on a found account, giving the new record and the result; its cases are stated by LockedRejectsAll, ExpiredLockResets, WrongPassword and RightPassword, and AttemptPreservesValid bounds the counter |
| Auth.AttemptPreservesValid | learnhub/lib/auth.ts:63-98 | one login attempt keeps the account's failure counter below 3 while unlocked and at exactly 3 while a lock is recorded, so the counter never exceeds the limit |
| Auth.LockedRejectsAll | learnhub/lib/auth.ts:63-70 | while the lock has not expired every attempt fails whatever the password, the record is left unchanged, and the reported wait is between 1 and 15 whole minutes |
| Auth.ExpiredLockResets | learnhub/lib/auth.ts:72-76 | an expired lock behaves exactly like an account with no lock and a zero counter |
| Auth.WrongPassword | learnhub/lib/auth.ts:78-93 | a wrong password raises the counter by one and fails; on reaching 3 it locks the account for 15 minutes with the lock message, otherwise it reports the attempts remaining |
| Auth.RightPassword | learnhub/lib/auth.ts:95-110 | the right password on an unlocked account clears counter and lock, stamps the login time and returns the user without password, counter or lock |
| Auth.ThreeStrikes | learnhub/lib/auth.ts:78-93 | three wrong passwords on a fresh account report 2 and 1 attempts remaining and then lock it; the right password is refused during the lock and accepted once 15 minutes have passed |
| Auth.FindByEmail | learnhub/lib/auth.ts:57 | the result is the index of the first account with that email, and None exactly when no account has it |
| Auth.AuthService.constructor | learnhub/lib/auth.ts:19-47 | the table starts as the three demo accounts (student, teacher, administrator) with zero counters and no locks |
| Auth.AuthService.Login | learnhub/lib/auth.ts:53-111 | an unknown email fails with "Invalid email or password" and changes nothing; a known email goes through one attempt on its own row, only that row changes, and the table stays valid |
| Auth.AuthService.Register | learnhub/lib/auth.ts:113-148 | a taken email fails with "Email already registered" and changes nothing; otherwise exactly one account is appended with id `String(now)`, a zero counter and no lock, and it is returned |
| Auth.RegisteredCanLogIn | learnhub/lib/auth.ts:123-137 | after registering, the email finds the new account and logging in with its password succeeds |
| Certificates.ToBase36 | learnhub/lib/certificates.ts:121 | the base-36 numeral has at least one digit (its meaning is fixed by the round trip below) |
| Certificates.UpperBase36RoundTrip | learnhub/lib/certificates.ts:121 | the upper-cased base-36 numeral of the timestamp reads back to the same number |
| Certificates.CertificateNumberDecodes | learnhub/lib/certificates.ts:120-124 | a certificate number splits on '-' into "LH", the upper-case timestamp and the upper-case random part, and the timestamp part decodes to the issue time |
| Certificates.FindById | learnhub/lib/certificates.ts:132 | the result is the first certificate in the list with the id, as `find` returns; None exactly when no certificate has it |
| Certificates.FindByNumber | learnhub/lib/certificates.ts:137 | the result is the first certificate in the list with the number; None exactly when none has it |
| Certificates.SearchUsers | learnhub/lib/certificates.ts:135-141 | the result is the first match in the list of the first user, in the given order, whose list holds the number; None exactly when no listed user has one |
| Certificates.CertificateManager.constructor | learnhub/lib/certificates.ts:53-59 | the store starts empty |
| Certificates.CertificateManager.GetUserCertificates | learnhub/lib/certificates.ts:126-128 | the user's list, or the empty list for an unknown user |
| Certificates.CertificateManager.GetCertificate | learnhub/lib/certificates.ts:130-133 | the certificate with that id from the user's own list; None exactly when the list has none with that id |
| Certificates.CertificateManager.GenerateCertificate | learnhub/lib/certificates.ts:97-118 | the returned certificate carries the given fields, grade "A" and a number built from the clock; it is appended to the user's list, created if absent, and no other user's list changes |
| Certificates.CertificateManager.VerifyCertificate | learnhub/lib/certificates.ts:135-141 | the loop returns the first certificate with that number, taking users in insertion order, as the search function defines |
| Certificates.VerifyFindsExactlyIssued | learnhub/lib/certificates.ts:135-141 | verification finds a certificate exactly when some user holds one with that number, and what it finds has that number |
| Certificates.IssuedCertificateIsFound | learnhub/lib/certificates.ts:110-141 | a certificate in a user's list is found by its number, and by its id in that user's list |
| ChatbotRoute.HandleChat | learnhub/app/api/chatbot/recommend/route.ts:4-33 | the route's response to a request body; HandleChatFailure, HandleChatMergesProfile and HandleChatTurnCap state its status, profile merge and recommendations |
| ChatbotRoute.HandleChatFailure | learnhub/app/api/chatbot/recommend/route.ts:4-33 | a request that cannot be handled gets status 500 with the fixed apology, no recommendations and an empty profile; every other request gets status 200 |
| ChatbotRoute.HandleChatMergesProfile | learnhub/app/api/chatbot/recommend/route.ts:7-11 | a detected experience level, time commitment or goal replaces the earlier value and an undetected one keeps it; the interests detected in the message are appended after the earlier ones (kept unchanged when none is detected); the learning style is untouched |
| ChatbotRoute.HandleChatTurnCap | learnhub/app/api/chatbot/recommend/route.ts:14-21 | after more than 8 earlier turns the reply carries the top three recommendations (all of them when the catalogue is smaller) and no next question |
| Community.MatchingPosts | learnhub/lib/community.ts:302-312 | the filter keeps, in input order, exactly the posts whose title, content, author name or a tag contains the search term case-insensitively and whose category matches ("All Categories" matches all) |
| Community.PinnedThenNewestIsStrictTotalOrder | learnhub/lib/community.ts:330-334 | the default comparator (pinned first, then newest) is a strict total order on its keys |
| Community.SortPosts | learnhub/lib/community.ts:315-327 | the sort chosen by name, a stable sort of the matches; FilterPostsSortedByKey and FilterPostsDefaultOrder state the order for each name |
| Community.FilterPosts | learnhub/lib/community.ts:301-338 | the matching posts in the chosen order; FilterPostsIsPermutationOfMatches, FilterPostsSortedByKey and FilterPostsDefaultOrder state its contents and order |
| Community.FilterPostsIsPermutationOfMatches | learnhub/lib/community.ts:301-338 | whatever the sort, the result is a permutation of the matching posts: a post is in it exactly when it is in the input and matches |
| Community.FilterPostsSortedByKey | learnhub/lib/community.ts:315-327 | "newest", "oldest", "most-replies" and "most-upvotes" order the result by creation time descending or ascending, by reply count descending and by upvotes descending |
| Community.FilterPostsDefaultOrder | learnhub/lib/community.ts:328-334 | any other sort puts pinned posts first, each group newest first, and posts with equal keys keep their input order |
| Community.TimeAgo | learnhub/lib/community.ts:348-356 | the relative-time label of a post's date; TimeAgoLabels states each range's text |
| Community.TimeAgoLabels | learnhub/lib/community.ts:348-356 | under a minute reads "just now"; then whole minutes, hours and days with the unit suffix, each count in its range and not above the elapsed time; from 30 days on the locale date is used |
| Community.FormatFileSize | learnhub/lib/community.ts:340-341 | zero bytes prints "0 Bytes" |
| CourseContent.ModuleTitlesComplete | learnhub/components/courses/course-content.tsx:42-53 | each of the eight known categories names modules 1 to 4 with a non-empty title |
| CourseContent.ModuleTitle | learnhub/components/courses/course-content.tsx:42-53 | `getModuleTitle`: the table's title for a known category and module, else "Module n"; ModuleTitlesComplete and ModuleTitleFallback state both cases |
| CourseContent.ModuleTitleFallback | learnhub/components/courses/course-content.tsx:53 | an unknown category or a module outside 1..4 gets "Module " followed by the module number, which reads back |
| CourseContent.LessonAt | learnhub/components/courses/course-content.tsx:21-40 | the lesson the nested loop builds at position i; GenerateLessons ties the loop to it, and LessonShape, LessonIdDecodes and LessonIdsDistinct state its module, number and id |
| CourseContent.GenerateLessons | learnhub/components/courses/course-content.tsx:21-40 | the nested loop yields exactly `course.lessons` lessons, lesson i being the closed-form lesson at position i (module, number, id, title, lock flag) |
| CourseContent.FourModulesSuffice | learnhub/components/courses/course-content.tsx:23-27 | four modules of ⌈n/4⌉ lessons hold all n lessons, so the module loop never runs out |
| CourseContent.LessonShape | learnhub/components/courses/course-content.tsx:25-35 | each generated lesson sits in a module from 1 to 4 with a number from 1 to ⌈n/4⌉, and module numbers never decrease along the list |
| CourseContent.LessonIdDecodes | learnhub/components/courses/course-content.tsx:29 | the id `course-module-lesson` splits on '-' so that its last two fields are the module and lesson numbers |
| CourseContent.LessonIdInjective | learnhub/components/courses/course-content.tsx:29 | within a course, equal ids have equal module and lesson numbers |
| CourseContent.PositionDetermined | learnhub/components/courses/course-content.tsx:25-27 | a position in the list is determined by its module and lesson number |
| CourseContent.LessonIdsDistinct | learnhub/components/courses/course-content.tsx:25-29 | distinct positions get distinct ids |
| CourseContent.GeneratedIdsDistinct | learnhub/components/courses/course-content.tsx:21-40 | the generated lessons have pairwise distinct ids |
| CourseContent.ComputeLocks | learnhub/components/courses/course-content.tsx:65-79 | the loop builds the lock map that the lock-map function defines |
| CourseContent.LockMap | learnhub/components/courses/course-content.tsx:65-79 | the locked flag per lesson id; LockMapSpec states that the first lesson is open and lesson i is locked exactly when lesson i-1 is not completed |
| CourseContent.LockMapSpec | learnhub/components/courses/course-content.tsx:65-79 | with distinct ids, every lesson has an entry: the first is unlocked and lesson i > 0 is locked exactly when lesson i-1 is not completed in the user's progress |
| CourseContent.FirstOpen | learnhub/components/courses/course-content.tsx:86 | the first lesson not locked, None exactly when all are locked, and the first lesson itself when it is open |
| CourseContent.FirstLessonId | learnhub/components/courses/course-content.tsx:29 | the first generated lesson has id `course-1-1` |
| CourseContent.AutoStart | learnhub/components/courses/course-content.tsx:82-89 | the lesson `?start=1` opens; AutoStartOpensFirst, AutoStartOpensFirstLesson and AutoStartOnlyWhenIdle state when it opens one and which |
| CourseContent.AutoStartOpensFirst | learnhub/components/courses/course-content.tsx:82-89 | with `?start=1` and no open lesson, auto-start opens the first lesson, since it is never locked |
| CourseContent.AutoStartOpensFirstLesson | learnhub/components/courses/course-content.tsx:82-89 | on a generated course auto-start always opens lesson `course-1-1` |
| CourseContent.AutoStartOnlyWhenIdle | learnhub/components/courses/course-content.tsx:83-85 | without `?start=1`, or with a lesson already open, auto-start changes nothing |
| CourseContent.FindIndex | learnhub/components/courses/course-content.tsx:127 | the index of the first lesson with that id; None exactly when no lesson has it |
| CourseContent.NextActive | learnhub/components/courses/course-content.tsx:126-130 | the open lesson after a lesson completes; NextActiveSpec states it is the following lesson, or the current one after the last |
| CourseContent.NextActiveSpec | learnhub/components/courses/course-content.tsx:126-130 | completing lesson i opens lesson i+1; completing the last lesson keeps the open lesson |
| CourseContent.VideoIds | learnhub/components/courses/course-content.tsx:110 | the ids listed are those of the video materials, every video's id among them |
| CourseContent.AllVideosDone | learnhub/components/courses/course-content.tsx:110-112 | the auto-complete test of the open lesson; AllVideosDoneSpec states it over the lesson's video materials, both directions |
| CourseContent.AllVideosDoneSpec | learnhub/components/courses/course-content.tsx:110-112 | the auto-complete test holds exactly when the lesson has a video and every video is the one just finished or was finished before |
| CourseContent.CourseContentView.constructor | learnhub/components/courses/course-content.tsx:59-61 | the page starts with no open lesson and no finished materials |
| CourseContent.CourseContentView.HandleLessonComplete | learnhub/components/courses/course-content.tsx:118-131 | a signed-in user's lesson is recorded completed with the time spent and the course progress recomputed, and the certificate store and the order of certified users gain exactly the certificate that recomputation issues; without a user neither store changes; the next lesson, if any, is opened |
| CourseContent.CourseContentView.HandleMaterialComplete | learnhub/components/courses/course-content.tsx:100-116 | the material joins the finished set; when every video of the open lesson is now finished the lesson is completed and the next one opened; without a user no progress is recorded |
| CourseMaterialUploader.FindCourse | learnhub/components/upload/course-material-uploader.tsx:31 | the result is the first course in the catalogue with the id; None exactly when no course has it |
| CourseMaterialUploader.ModuleOptions | learnhub/components/upload/course-material-uploader.tsx:34-37 | one choice per lesson of the module, in lesson order, each with id `course-module-lesson` and label `module - lesson` |
| CourseMaterialUploader.CurriculumOptions | learnhub/components/upload/course-material-uploader.tsx:33-37 | the flattened choices number exactly the lessons of all modules |
| CourseMaterialUploader.LessonCountAppend | learnhub/components/upload/course-material-uploader.tsx:33 | the lesson count of two runs of modules is the sum of their counts, as `flatMap` concatenates |
| CourseMaterialUploader.CurriculumOptionAt | learnhub/components/upload/course-material-uploader.tsx:33-37 | lesson j of module i becomes the choice at position (lessons before module i) + j, with id `course-moduleId-lessonId` |
| CourseMaterialUploader.AvailableLessons | learnhub/components/upload/course-material-uploader.tsx:31-38 | the lesson choices of the selected course; CurriculumOptions and CurriculumOptionAt state them for a course with a curriculum, NoCurriculumNoLessons the empty cases |
| CourseMaterialUploader.NoCurriculumNoLessons | learnhub/components/upload/course-material-uploader.tsx:31-38 | an unknown course, or one without a curriculum, offers no lessons |
| CourseMaterialUploader.TypeOfMime | learnhub/components/upload/course-material-uploader.tsx:44 | a type starting with "video/" maps to video, exactly "application/pdf" to pdf, and anything else to code |
| CourseMaterialUploader.NewMaterial | learnhub/components/upload/course-material-uploader.tsx:41-50 | the record keeps the file's id and name, takes its type from the MIME type, gets URL "/uploads/" + id, carries the selected course and lesson and the description, and takes the title field or, when that is empty, the file name |
| CourseMaterialUploader.NewMaterials | learnhub/components/upload/course-material-uploader.tsx:41 | one record per file, in file order |
| CourseMaterialUploader.Uploader.constructor | learnhub/components/upload/course-material-uploader.tsx:25-29 | every field starts empty |
| CourseMaterialUploader.Uploader.HandleFilesUploaded | learnhub/components/upload/course-material-uploader.tsx:40-53 | the new records are appended after the earlier ones in upload order; selection and form fields are unchanged |
| CourseMaterialUploader.Uploader.HandleSaveMaterials | learnhub/components/upload/course-material-uploader.tsx:55-64 | reports how many materials were saved, then clears the list, title and description but keeps the course and lesson selection |
| CourseMaterials.MaterialsOf | learnhub/lib/course-materials.ts:929-931 | a known course's list, and the empty list for an unknown course |
| CourseMaterials.GetMaterialsForLesson | learnhub/lib/course-materials.ts:923-927 | only the course named before the lesson id's first "-" is searched; every result has the lesson id; an unknown course gives nothing |
| CourseMaterials.LessonLookupComplete | learnhub/lib/course-materials.ts:923-927 | on a table where each material is filed under its lesson's course, the lookup misses no material of the lesson and returns them in table order |
| CourseMaterials.FiledUnderNamesCourse | learnhub/lib/course-materials.ts:924 | a lesson id that begins with a dash-free key and "-" names that key as its course |
| CourseMaterials.Course1FiledUnderKey | learnhub/lib/course-materials.ts:29-255 | every material listed under course "1" has a lesson id beginning "1-" |
| CourseMaterials.Course2FiledUnderKey | learnhub/lib/course-materials.ts:256-475 | every material listed under course "2" has a lesson id beginning "2-" |
| CourseMaterials.Course3FiledUnderKey | learnhub/lib/course-materials.ts:476-655 | every material listed under course "3" has a lesson id beginning "3-" |
| CourseMaterials.Course4FiledUnderKey | learnhub/lib/course-materials.ts:656-708 | every material listed under course "4" has a lesson id beginning "4-" |
| CourseMaterials.Course5FiledUnderKey | learnhub/lib/course-materials.ts:709-761 | every material listed under course "5" has a lesson id beginning "5-" |
| CourseMaterials.Course6FiledUnderKey | learnhub/lib/course-materials.ts:762-814 | every material listed under course "6" has a lesson id beginning "6-" |
| CourseMaterials.Course7FiledUnderKey | learnhub/lib/course-materials.ts:815-867 | every material listed under course "7" has a lesson id beginning "7-" |
| CourseMaterials.Course8FiledUnderKey | learnhub/lib/course-materials.ts:868-920 | every material listed under course "8" has a lesson id beginning "8-" |
| CourseMaterials.KeyedFromLists | learnhub/lib/course-materials.ts:28-921 | a table whose every list is filed under its own dash-free key is keyed by course |
| CourseMaterials.SeedKeyedByCourse | learnhub/lib/course-materials.ts:28-921 | the seeded table is keyed by course, so lesson lookup by prefix finds every seeded material |
| CourseMaterials.SeedKeysListSeed | learnhub/lib/course-materials.ts:1011 | the visiting order of the seeded record lists each course key exactly once, in the order `for ... in` visits them |
| CourseMaterials.ResolveUrl | learnhub/lib/course-materials.ts:1015-1019 | a URL starting with "https://" is kept; any other is prefixed by the storage base ("" when unset) |
| CourseMaterials.ResolveUrlIdempotent | learnhub/lib/course-materials.ts:1039-1041 | resolving twice equals resolving once when the base is unset or absolute |
| CourseMaterials.GetMaterialsForLessonWithUrls | learnhub/lib/course-materials.ts:1033-1043 | the same materials as the lesson lookup, in the same order, with only the URL resolved |
| CourseMaterials.FindMaterial | learnhub/lib/course-materials.ts:1012 | the found material is the first in the list with the id; None exactly when none has it |
| CourseMaterials.MaterialUrl | learnhub/lib/course-materials.ts:1009-1025 | the URL `getMaterialUrl` returns when the courses are visited in a given order; MaterialUrlSpec and MaterialUrlFirst state its meaning |
| CourseMaterials.MaterialUrlSpec | learnhub/lib/course-materials.ts:1009-1025 | no URL exactly when no visited course holds a material with that id; otherwise the URL is the resolved URL of such a material |
| CourseMaterials.MaterialUrlFirst | learnhub/lib/course-materials.ts:1009-1025 | a found URL comes from the first course in key order that holds the id, and from the first material with that id in it |
| CourseMaterials.ParseLeadingZero | learnhub/lib/course-materials.ts:957 | a leading "0" does not change the number a run of digits reads as |
| CourseMaterials.NatToStringBelow60 | learnhub/lib/course-materials.ts:957 | a number of seconds below 60 prints in at most two digits |
| CourseMaterials.VideoDuration | learnhub/lib/course-materials.ts:957 | the "m:ss" duration text of an uploaded video; VideoDurationRoundTrip states that it reads back to the seconds |
| CourseMaterials.VideoDurationRoundTrip | learnhub/lib/course-materials.ts:957 | the duration text is minutes, ":", and seconds padded to two digits, and reads back to the same number of seconds |
| CourseMaterials.MaterialStore.constructor | learnhub/lib/course-materials.ts:28-921 | the store starts as the seeded catalogue, visited in key order "1" to "8" |
| CourseMaterials.MaterialStore.AddMaterialToCourse | learnhub/lib/course-materials.ts:998-1007 | the material is appended to its course's list, created empty if missing; other courses are unchanged; a new course key enters the visiting order where JavaScript's key order puts it (ObjectKeys.InsertKey), and the order stays distinct and in that key order |
| CourseMaterials.IndexKeyVisitedFirst | learnhub/lib/course-materials.ts:998-1025 | a course added under "0" is visited before the seeded courses "1" to "8", so its material decides the URL of its id |
| CourseMaterials.MaterialStore.GetMaterialUrl | learnhub/lib/course-materials.ts:1009-1025 | the loop returns what the URL function defines: the first course in visiting order holding the id decides the URL |
| CourseMaterials.AddKeepsLessonLookup | learnhub/lib/course-materials.ts:998-1007 | adding a material to the course its lesson id names keeps the table keyed by course, and the lesson's lookup then ends with that material |
| Courses.CourseCatalog.constructor | learnhub/lib/courses.ts:253 | the catalogue starts as the given course list |
| Courses.CourseCatalog.AddNewCourse | learnhub/lib/courses.ts:256-259 | the course is appended at the end of the catalogue and returned unchanged |
| Courses.MatchingCourses | learnhub/lib/courses.ts:268-278 | the filter keeps, in catalogue order, exactly the courses whose title, description or instructor contains the search term case-insensitively and whose category and level match (or are the wildcards) |
| Courses.FeaturedThenRatingIsStrictTotalOrder | learnhub/lib/courses.ts:293-297 | the default comparator (featured first, then higher rating) is a strict total order on its keys |
| Courses.SortCourses | learnhub/lib/courses.ts:281-297 | the sort chosen by name, a stable sort of the matches; FilterCoursesSortedByKey and FilterCoursesDefaultOrder state the order for each name |
| Courses.FilterCourses | learnhub/lib/courses.ts:261-301 | the matching courses in the chosen order; FilterCoursesIsPermutationOfMatches, FilterCoursesSortedByKey and FilterCoursesDefaultOrder state its contents and order |
| Courses.FilterCoursesIsPermutationOfMatches | learnhub/lib/courses.ts:261-301 | whatever the sort, the result is a permutation of the matching courses |
| Courses.EmptySearchMatchesEverything | learnhub/lib/courses.ts:269-272 | an empty search term restricts nothing |
| Courses.FilterCoursesSortedByKey | learnhub/lib/courses.ts:281-290 | "rating", "students" and "newest" order the result by descending rating, enrolment and update time |
| Courses.FilterCoursesDefaultOrder | learnhub/lib/courses.ts:291-297 | any other sort puts featured courses first, each group by descending rating, and courses with equal keys keep their input order |
| CoursesRoute.FirstIndex | learnhub/app/api/courses/route.ts:15 | the index of the first row with the key, or the row count when none has it |
| CoursesRoute.FirstIndexPrefix | learnhub/app/api/courses/route.ts:13-18 | a key first seen within a prefix of the rows is first seen at the same index in all of them |
| CoursesRoute.UniqueKeys | learnhub/app/api/courses/route.ts:13-20 | the kept rows have exactly the stringified ids of the input |
| CoursesRoute.UniqueDistinct | learnhub/app/api/courses/route.ts:11-20 | the kept rows have pairwise distinct ids |
| CoursesRoute.UniqueCoversAll | learnhub/app/api/courses/route.ts:13-20 | every id of the input is the id of a kept row |
| CoursesRoute.UniqueKeepsFirst | learnhub/app/api/courses/route.ts:15-17 | each kept row is the first input row with its id |
| CoursesRoute.UniqueInFirstAppearanceOrder | learnhub/app/api/courses/route.ts:20 | the kept rows come in the order their ids first appear |
| CoursesRoute.UniqueCourses | learnhub/app/api/courses/route.ts:11-20 | the loop over a Map guarded by `has`, read back in insertion order, yields exactly the kept rows |
| FileStorage.Extension | learnhub/lib/file-storage.ts:103 | the extension never contains a "." |
| FileStorage.ExtensionIsLastDotSuffix | learnhub/lib/file-storage.ts:103 | the extension is the dot-free tail of the lower-cased name, preceded by a "." unless it is the whole name, and is the whole lower-cased name when there is no "." |
| FileStorage.GetFileType | learnhub/lib/file-storage.ts:101-124 | the type of a file by its lower-cased last extension, pdf by default; ExtensionIsLastDotSuffix, FileTypeIgnoresCase and NameWithoutDot state its meaning |
| FileStorage.FileTypeIgnoresCase | learnhub/lib/file-storage.ts:103 | a name and its lower-cased form are classified alike |
| FileStorage.ExtensionOfSingleDot | learnhub/lib/file-storage.ts:103 | a name with one "." between two dot-free parts has the second part as its extension |
| FileStorage.UpperCaseVideoExample | learnhub/lib/file-storage.ts:102-108 | "A.MP4" and "a.mp4" are both videos |
| FileStorage.UnknownExtensionExample | learnhub/lib/file-storage.ts:122-123 | an unlisted extension such as "tar" falls back to PDF |
| FileStorage.NameWithoutDot | learnhub/lib/file-storage.ts:103-124 | a name without "." is classified by the whole lower-cased name |
| FileStorage.DigitsHaveNo | learnhub/lib/file-storage.ts:26 | a run of decimal digits contains no "_" or other non-digit, so the time stamp in a blob name ends at the first "_" |
| FileStorage.FolderPath | learnhub/lib/file-storage.ts:25 | "courses/<id>" for a non-empty course id, else "uploads"; ObjectNameDecodes states the blob name starts with it |
| FileStorage.ObjectName | learnhub/lib/file-storage.ts:25-26 | the blob name folder + "/" + time + "_" + file name; ObjectNameDecodes states that it decodes back into those parts |
| FileStorage.ObjectNameDecodes | learnhub/lib/file-storage.ts:25-26 | the blob name starts with the folder and "/", and the text up to the next "_" is the upload time in decimal |
| FileStorage.FileIdOf | learnhub/lib/file-storage.ts:33 | the id is slash-free, or is the fallback `file_<now>` |
| FileStorage.FileIdIsLastSegment | learnhub/lib/file-storage.ts:33 | for a URL not ending in "/", the id is its last path segment |
| FileStorage.UploadFile | learnhub/lib/file-storage.ts:22-52 | a failed `put` gives its message, or "Upload failed"; a stored blob gives a record with the blob URL, the file's name and size, the classified type, the upload time and the course and lesson ids |
| FileStorage.UploadCourseFile | learnhub/lib/file-storage.ts:131-141 | without a file the result is "No file provided" and nothing is uploaded; otherwise it is the upload of that file |
| MaterialsUploadRoute.SchemaBounds | learnhub/app/api/materials/upload/route.ts:5-11 | the form schema's bounds are inclusive: a 200-character title passes, 201 and empty do not; an empty description passes but a missing one does not; type "quiz" is refused |
| MaterialsUploadRoute.Post | learnhub/app/api/materials/upload/route.ts:13-47 | a missing file or a refused form gives 400 and changes nothing; a failed upload gives 500 and changes nothing; otherwise the material is appended to its course's list and returned, and a new course key enters the visiting order as JavaScript orders keys |
| Middleware.Guard | learnhub/middleware.ts:6-20 | the request is redirected exactly when the path starts with "/admin" or "/dashboard" and the auth cookie is missing or empty, and the redirect carries the original path |
| Middleware.GuardByCase | learnhub/middleware.ts:9-19 | any token lets every path through; a missing and an empty cookie act alike; without a token every "/admin…" and "/dashboard…" path is redirected to login with itself as target |
| Middleware.GuardExamples | learnhub/middleware.ts:9 | the test is a plain prefix test: "/administrator" is guarded, "/login" and "/" are not |
| UploadRoute.SameFileTypeAsStorage | learnhub/app/api/upload/route.ts:41-64 | the route's own extension table classifies every name exactly as the storage service does |
| UploadRoute.Post | learnhub/app/api/upload/route.ts:4-39 | without a file the answer is 400 "No file provided" before any upload; a failed upload gives 500 "Upload failed"; otherwise 200 with the id taken from the blob URL, the blob URL, the upload time, the file's name, size and type and the course and lesson ids |
| UploadRoute.BlobFolder | learnhub/app/api/upload/route.ts:16-17 | with a non-empty course id the blob lands under "courses/<id>/", otherwise under "uploads/" |
| NewPostDialog.AcceptedFiles | learnhub/components/community/new-post-dialog.tsx:43-49 | the size filter keeps, in the order chosen, exactly the files of at most 10 MiB |
| NewPostDialog.LastTooLarge | learnhub/components/community/new-post-dialog.tsx:44-46 | no error is set exactly when every file is within the limit; otherwise the error names the last oversized file |
| NewPostDialog.RemoveAtSpec | learnhub/components/community/new-post-dialog.tsx:54-56 | removal drops exactly the element at the index and keeps the rest in order; an index out of range changes nothing |
| NewPostDialog.TrimIdempotent | learnhub/components/community/new-post-dialog.tsx:82 | a trimmed tag trims to itself |
| NewPostDialog.CleanTagsFromPieces | learnhub/components/community/new-post-dialog.tsx:80-83 | every tag is the non-empty trim of some comma-separated piece |
| NewPostDialog.CleanTagsKeepsNonBlank | learnhub/components/community/new-post-dialog.tsx:82-83 | a piece that does not trim to nothing yields a tag |
| NewPostDialog.ParseTags | learnhub/components/community/new-post-dialog.tsx:80-83 | the tags of the comma-separated field; ParsedTagsClean, CleanTagsFromPieces and NonBlankPieceKept state that it keeps exactly the trimmed non-blank pieces |
| NewPostDialog.ParsedTagsClean | learnhub/components/community/new-post-dialog.tsx:80-83 | every parsed tag is non-empty, already trimmed and free of commas |
| NewPostDialog.NonBlankPieceKept | learnhub/components/community/new-post-dialog.tsx:80-83 | every non-blank piece between commas becomes a tag, so only blank pieces are dropped |
| NewPostDialog.Dialog.constructor | learnhub/components/community/new-post-dialog.tsx:24-31 | the form starts empty with category "General Discussion", no attachments and no error |
| NewPostDialog.Dialog.SetField | learnhub/components/community/new-post-dialog.tsx:34-37 | one field takes the value, the others and the attachments are unchanged, and the error is cleared |
| NewPostDialog.Dialog.HandleFileUpload | learnhub/components/community/new-post-dialog.tsx:39-52 | the accepted files are appended after the existing attachments; the last oversized file's name is reported; the text fields are unchanged |
| NewPostDialog.Dialog.RemoveAttachment | learnhub/components/community/new-post-dialog.tsx:54-56 | exactly the attachment at the index is removed, the rest keep their order, and nothing else changes |
| NewPostDialog.Dialog.HandleSubmit | learnhub/components/community/new-post-dialog.tsx:58-104 | a blank title gives "Please enter a title" before content is checked, then a blank content gives "Please enter content", and nothing is submitted or reset; otherwise the post carries the fields, the parsed tags, the attachments and the author, and the form is reset |
| NewPostDialog.CategoryChoices | learnhub/components/community/new-post-dialog.tsx:145 | the menu lists the forum categories after the first, in order |
| NewPostDialog.CategoryChoicesSpec | learnhub/components/community/new-post-dialog.tsx:145 | the menu excludes "All Categories" and offers the default "General Discussion" |
| NewPostDialog.SizeLimitInclusive | learnhub/components/community/new-post-dialog.tsx:41-44 | a file of exactly 10 MiB is accepted and one byte more is rejected |
| ProgressTracking.FindCourse | learnhub/lib/progress-tracking.ts:83 | the index of the first record for the course; None exactly when there is none |
| ProgressTracking.FindLesson | learnhub/lib/progress-tracking.ts:110 | the index of the first record for the lesson; None exactly when there is none |
| ProgressTracking.CountCertified | learnhub/lib/progress-tracking.ts:202 | the number of certified courses is at most the number of courses |
| ProgressTracking.CountCertifiedAppend | learnhub/lib/progress-tracking.ts:101 | appending a course record adds one to the certified count exactly when it is certified |
| ProgressTracking.CountCertifiedUpdate | learnhub/lib/progress-tracking.ts:167-168 | replacing one course record changes the certified count by the change in that record's flag |
| ProgressTracking.Percent | learnhub/lib/progress-tracking.ts:162-163 | the percentage is 100·completed/denominator rounded to the nearest whole number with halves up, and 0 when the denominator is 0 |
| ProgressTracking.PercentBounds | learnhub/lib/progress-tracking.ts:159-163 | while completed lessons do not exceed the denominator the percentage lies in 0..100, 0 with none done and 100 with all done |
| ProgressTracking.PercentReaches100 | learnhub/lib/progress-tracking.ts:163-167 | the percentage reaches 100 exactly when completed/denominator is at least 0.995 |
| ProgressTracking.CountCompleted | learnhub/lib/progress-tracking.ts:160 | the number of completed lessons is at most the number of lesson records |
| ProgressTracking.SettlePreservesValid | learnhub/lib/progress-tracking.ts:155-192 | recomputing a course keeps the user record valid: unique courses and lessons, the completed count equal to the certified courses and one achievement per completion |
| ProgressTracking.CertificateAtMostOnce | learnhub/lib/progress-tracking.ts:167-191 | the first recomputation reaching 100 certifies the course, adds exactly one completion and one "Completed <id>" achievement; any later recomputation adds neither |
| ProgressTracking.EnrollPreservesValid | learnhub/lib/progress-tracking.ts:86-104 | enrolling keeps the user record valid |
| ProgressTracking.EnrollIdempotent | learnhub/lib/progress-tracking.ts:86-104 | enrolling twice is enrolling once, and afterwards the course has a record, a fresh one when it had none |
| ProgressTracking.CompletedAtSetOnce | learnhub/lib/progress-tracking.ts:121-125 | the update's fields replace the lesson's; a completing update stamps `completedAt` only when the lesson has none, so a later completion keeps the first date |
| ProgressTracking.WithLessonFinds | learnhub/lib/progress-tracking.ts:110-119 | adding a missing lesson record keeps lesson ids unique, leaves the earlier records alone, and the lesson then has a record |
| ProgressTracking.AddOnceNoDuplicates | learnhub/lib/progress-tracking.ts:147-149 | the material id is present afterwards, occurs once if it was absent, no other id changes count, and a duplicate-free list stays duplicate-free |
| ProgressTracking.WithLessonHasRecord | learnhub/lib/progress-tracking.ts:110-119 | after the missing-record step the lesson always has a record |
| ProgressTracking.FindCourseSameIds | learnhub/lib/progress-tracking.ts:83 | the course lookup depends only on the course ids of the records |
| ProgressTracking.ReplaceLessonsPreservesValid | learnhub/lib/progress-tracking.ts:110-149 | changing one course's lesson list (to one with unique ids) keeps the user record valid and the course at the same index |
| ProgressTracking.UpdateLessonsDistinct | learnhub/lib/progress-tracking.ts:106-125 | a lesson update keeps lesson ids unique and leaves a record for the lesson |
| ProgressTracking.MarkLessonsDistinct | learnhub/lib/progress-tracking.ts:132-149 | marking a material keeps lesson ids unique |
| ProgressTracking.MarkLessonsIdempotent | learnhub/lib/progress-tracking.ts:132-149 | marking the same material twice is marking it once |
| ProgressTracking.CountInProgress | learnhub/lib/progress-tracking.ts:203-205 | the number of courses in progress is at most the number of courses |
| ProgressTracking.CertifiedPlusInProgress | learnhub/lib/progress-tracking.ts:202-205 | completed and in-progress courses never overlap, so together they are at most all courses |
| ProgressTracking.StatsAgreeWithTotals | learnhub/lib/progress-tracking.ts:194-217 | on a valid record the completed count equals the stored completion total, the certificates earned and the number of achievements, and completed plus in-progress is at most the total |
| ProgressTracking.FindCatalogCourse | learnhub/lib/progress-tracking.ts:175 | the course a certificate is issued for is the first catalogue course with that id; None when the catalogue has none |
| ProgressTracking.UserOfValid | learnhub/lib/progress-tracking.ts:68-79 | the record `getUserProgress` returns, stored or freshly created, is valid |
| ProgressTracking.EnrollStepValid | learnhub/lib/progress-tracking.ts:86-104 | enrolling keeps every user record of the store valid |
| ProgressTracking.CourseStepValid | learnhub/lib/progress-tracking.ts:155-192 | recomputing a course keeps every user record of the store valid |
| ProgressTracking.LessonStepValid | learnhub/lib/progress-tracking.ts:106-153 | a lesson update or a completed material keeps every user record of the store valid |
| ProgressTracking.NotEnrolledUnchanged | learnhub/lib/progress-tracking.ts:107-108 | for a course the user is not enrolled in, the lesson step and the recomputation change nothing beyond creating the user record, and no certificate is issued |
| ProgressTracking.LessonStepLocal | learnhub/lib/progress-tracking.ts:106-153 | a lesson step touches only the one course of the one user: other courses and other users are unchanged |
| ProgressTracking.PutPreservesValid | learnhub/lib/progress-tracking.ts:70 | storing a valid record keeps the store valid |
| ProgressTracking.ProgressTracker.constructor | learnhub/lib/progress-tracking.ts:34-36 | the store starts empty |
| ProgressTracking.ProgressTracker.GetUserProgress | learnhub/lib/progress-tracking.ts:68-79 | returns the stored record, or creates and stores the empty one on first access; nothing else changes |
| ProgressTracking.ProgressTracker.GetCourseProgress | learnhub/lib/progress-tracking.ts:81-84 | returns the first record for the course, None exactly when the user has none, creating only the user record |
| ProgressTracking.ProgressTracker.EnrollInCourse | learnhub/lib/progress-tracking.ts:86-104 | the store after the enrol step: a fresh course record only when the user had none for the course |
| ProgressTracking.ProgressTracker.UpdateCourseProgress | learnhub/lib/progress-tracking.ts:155-192 | the store after recomputing the course; the certificate store gains the certificate exactly when the course first reaches 100 and is in the catalogue, and the user joins the order of certified users only with their first certificate |
| ProgressTracking.ProgressTracker.UpdateLessonProgress | learnhub/lib/progress-tracking.ts:106-130 | the store after the lesson update followed by the course recomputation, and the certificate issued by it, if any, in the certificate store and the order of certified users |
| ProgressTracking.ProgressTracker.MarkMaterialCompleted | learnhub/lib/progress-tracking.ts:132-153 | the store after recording the material once followed by the course recomputation, and the certificate issued by it, if any, in the certificate store and the order of certified users |
| ProgressTracking.ProgressTracker.GetProgressStats | learnhub/lib/progress-tracking.ts:194-217 | the statistics of the user's record (creating it on first access): total, completed, in-progress, time spent, certificates |
| ProtectedRoute.Gate | learnhub/components/auth/protected-route.tsx:15-51 | the spinner shows exactly while loading; signed out, the fallback shows when given, else "Access Denied"; signed in, "Insufficient Permissions" shows exactly when a required role is given and not held; the children render exactly when not loading, signed in and the role requirement is met |
| ProtectedRoute.NoRequirementAdmitsEveryRole | learnhub/components/auth/protected-route.tsx:39-50 | without a role requirement any signed-in user sees the children |
| ProtectedRoute.AdministratorOnly | learnhub/components/auth/protected-route.tsx:39-50 | an administrator-only page lets through exactly the administrator |
| RecommendationEngine.DetectedAmongMembers | learnhub/lib/recommendation-engine.ts:58-63 | with distinct category names, a category is collected exactly when one of its keywords occurs in the message |
| RecommendationEngine.DetectedAmongSubset | learnhub/lib/recommendation-engine.ts:58-63 | every collected category is a category of the table |
| RecommendationEngine.AnalyzeMessage | learnhub/lib/recommendation-engine.ts:25-118 | the loop over the interest table and the keyword chains compute exactly the extracted partial profile |
| RecommendationEngine.ExperiencePrecedence | learnhub/lib/recommendation-engine.ts:29-44 | "beginner" wins over everything; intermediate keywords win when no beginner keyword occurs; advanced is chosen exactly when an advanced keyword occurs and no beginner or intermediate one does |
| RecommendationEngine.AdvancedImpliesSkillUpgrade | learnhub/lib/recommendation-engine.ts:83-107 | since "advance" is a prefix of "advanced", a message with "advanced" and no career-change keyword gets the skill-upgrade goal |
| RecommendationEngine.GoalPrecedence | learnhub/lib/recommendation-engine.ts:83-107 | career change wins over skill upgrade, which wins over hobby, which wins over certification; each goal is chosen exactly when one of its keywords occurs and none of an earlier goal's does, and the field is absent exactly when no keyword occurs |
| RecommendationEngine.TimeCommitmentPrecedence | learnhub/lib/recommendation-engine.ts:69-80 | light is chosen exactly when a light keyword occurs; moderate only when no intensive keyword does; the field is absent exactly when no keyword occurs |
| RecommendationEngine.InterestsOnlyWhenDetected | learnhub/lib/recommendation-engine.ts:65-67 | interests are output exactly when some category matched, and then extend the current interests, which stay in front |
| RecommendationEngine.InterestTableHasDistinctNames | learnhub/lib/recommendation-engine.ts:47-56 | the interest table names eight distinct categories |
| RecommendationEngine.AnalyticsSignalsTwoCategories | learnhub/lib/recommendation-engine.ts:49-54 | "analytics" signals both "data science" and "business" |
| RecommendationEngine.MissingInformation | learnhub/lib/recommendation-engine.ts:141-150 | `getMissingInformation`; MissingInformationIsUnknownFieldsInOrder states that it lists exactly the unknown fields in the fixed order |
| RecommendationEngine.MissingInformationIsUnknownFieldsInOrder | learnhub/lib/recommendation-engine.ts:141-150 | the missing list holds exactly the unknown fields (interests unknown when absent or empty), in the order experience, interests, time commitment, goals |
| RecommendationEngine.MissingInformationOfEmptyProfile | learnhub/lib/recommendation-engine.ts:141-150 | an empty profile misses all four fields in that order |
| RecommendationEngine.NextQuestion | learnhub/lib/recommendation-engine.ts:152-169 | `getNextQuestion`; NextQuestionForField states that each field gets its own question |
| RecommendationEngine.NextQuestionForField | learnhub/lib/recommendation-engine.ts:152-169 | each field name reaches its own canned question, never the fallback |
| RecommendationEngine.DigitRunEnd | learnhub/lib/recommendation-engine.ts:275 | the end of the maximal run of digits starting at a position |
| RecommendationEngine.SpaceRunEnd | learnhub/lib/recommendation-engine.ts:275 | the end of the maximal run of whitespace starting at a position |
| RecommendationEngine.FirstWeekMatch | learnhub/lib/recommendation-engine.ts:275 | the leftmost position where digits, optional whitespace and "week" (any case) match, and no match before it |
| RecommendationEngine.ExtractWeeks | learnhub/lib/recommendation-engine.ts:274-277 | the week count of a duration text, 12 by default; FirstWeekMatch, ExtractWeeksRoundTrip and ExtractWeeksDefault state its meaning |
| RecommendationEngine.ExtractWeeksRoundTrip | learnhub/lib/recommendation-engine.ts:274-277 | a "<n> weeks" duration reads back as n |
| RecommendationEngine.DigitRunOf | learnhub/lib/recommendation-engine.ts:275 | a string starting with a digit run followed by a non-digit has that run as its first digit run |
| RecommendationEngine.ExtractWeeksDefault | learnhub/lib/recommendation-engine.ts:276 | a duration without digits defaults to 12 weeks |
| RecommendationEngine.LowerLevelName | learnhub/lib/recommendation-engine.ts:228 | the lower-cased level names are "beginner", "intermediate" and "advanced" |
| RecommendationEngine.ExperienceBonusTable | learnhub/lib/recommendation-engine.ts:226-236 | 40 points exactly for the same level, 20 exactly for beginner to Intermediate or intermediate to Advanced, and an advanced learner never gets 20 |
| RecommendationEngine.MatchCount | learnhub/lib/recommendation-engine.ts:243-247 | the number of matching interests is at most the number of interests |
| RecommendationEngine.CalculateCourseScore | learnhub/lib/recommendation-engine.ts:223-272 | the accumulating method returns the sum of the experience, interest, time and quality terms |
| RecommendationEngine.FeaturedAddsFive | learnhub/lib/recommendation-engine.ts:267-269 | being featured adds exactly 5 points |
| RecommendationEngine.MatchCountSameTags | learnhub/lib/recommendation-engine.ts:240-247 | the interest count depends only on the category and the tags |
| RecommendationEngine.MatchCountAppend | learnhub/lib/recommendation-engine.ts:243-247 | one more interest adds one to the count exactly when it matches |
| RecommendationEngine.RepeatedInterestCompounds | learnhub/lib/recommendation-engine.ts:243-247 | each occurrence counts: repeating a matching interest adds another 35 points |
| RecommendationEngine.TimeBonusForWeeks | learnhub/lib/recommendation-engine.ts:251-261 | a course of n weeks gets 15 points exactly when n is at most 10 for light, 8..14 for moderate, at least 12 for intensive |
| RecommendationEngine.GetRecommendations | learnhub/lib/recommendation-engine.ts:201-221 | the ranked catalogue; RecommendationsArePermutation, RecommendationsWithoutInterests and RecommendationsWithInterests state its contents and order |
| RecommendationEngine.RecommendationsArePermutation | learnhub/lib/recommendation-engine.ts:201-221 | the ranking is a permutation of the catalogue |
| RecommendationEngine.RecommendationsWithoutInterests | learnhub/lib/recommendation-engine.ts:207-208 | without interests the ranking is by descending score, and equal scores keep catalogue order |
| RecommendationEngine.RecommendationsWithInterests | learnhub/lib/recommendation-engine.ts:210-219 | with interests, courses whose category equals an interest come first; within each group scores descend and the score order is kept |
| RecommendationEngine.RecommendationMessage | learnhub/lib/recommendation-engine.ts:171-198 | `generateRecommendationMessage`; RecommendationMessageShape states its ending and the empty-list text |
| RecommendationEngine.RecommendationMessageShape | learnhub/lib/recommendation-engine.ts:171-198 | the reply always ends with the "All courses are completely free!" sentence; an empty list replaces everything before it by the "couldn't find" text; otherwise it starts with the introduction |
| RecommendationEngine.RecommendationsLength | learnhub/lib/recommendation-engine.ts:201-221 | the ranking has as many courses as the catalogue |
| RecommendationEngine.GenerateResponse | learnhub/lib/recommendation-engine.ts:113-139 | the chatbot's reply; GenerateResponseRecommends and GenerateResponseAsks state when it recommends and when it asks |
| RecommendationEngine.GenerateResponseRecommends | learnhub/lib/recommendation-engine.ts:122-131 | recommendations come exactly when every field is known or the history is longer than 8; they are the top three of the ranking (fewer for a smaller catalogue) with the recommendation message and no next question |
| RecommendationEngine.GenerateResponseAsks | learnhub/lib/recommendation-engine.ts:133-138 | otherwise the reply is the question for the first unknown field in the fixed order, names that field, and recommends nothing |
| RegisterForm.Check | learnhub/components/auth/register-form.tsx:32-40 | the checks pass exactly when no field is empty and the password has at least 6 characters; an empty field gives "Please fill in all fields" before the length is checked; a short password gives the length error |
| RegisterForm.Submit | learnhub/components/auth/register-form.tsx:28-48 | a failed check is reported and nothing is registered; registration succeeds exactly when the checks pass and the service succeeds; a failure shows the service's error, or "Registration failed" when that is empty |
| RegisterForm.BlankNamePasses | learnhub/components/auth/register-form.tsx:32 | the fields are not trimmed: a name of spaces passes |
| RegisterForm.PasswordBoundary | learnhub/components/auth/register-form.tsx:37-40 | six characters pass the length check, five do not |
| RegisterForm.EmptyFormReportsMissingFields | learnhub/components/auth/register-form.tsx:19-35 | the initial form reports the missing fields, not the short password |
| RegisterForm.DuplicateEmailShown | learnhub/components/auth/register-form.tsx:42-47 | a taken email surfaces the service's "Email already registered" |
| UserManagement.FilteredUsers | learnhub/components/admin/user-management.tsx:17-25 | the list holds exactly the users whose name or email contains the search term case-insensitively and whose role and status match the selections, in table order |
| UserManagement.NoFilterListsEveryone | learnhub/components/admin/user-management.tsx:17-25 | an empty search with role and status on "all" lists the whole table unchanged |
| UserManagement.FilterKeepsAll | learnhub/components/admin/user-management.tsx:17-25 | a filter every user passes returns the table itself |
| UserManagement.Stats | learnhub/components/admin/user-management.tsx:111-123 | the total card is the table size, and the active, teacher and suspended cards are the numbers of table positions holding an active user, a teacher and a suspended user |
| UserManagement.StatusesPartition | learnhub/components/admin/user-management.tsx:115-122 | active, suspended and pending users add up to the total, since every user has exactly one status |
| UserManagement.MockUserStats | learnhub/lib/admin.ts:60-116 | the admin table's cards read 5 users, 4 active, 1 teacher, 1 suspended |
| UserManagement.ActionFor | learnhub/components/admin/user-management.tsx:184-204 | the Suspend action is offered exactly to active users, Activate to all others |
| VideoHosting.DefaultsWithoutMetadata | learnhub/lib/video-hosting.ts:32-51 | with no metadata the stored record has the generated id, the file name as title, an empty description, duration 0, the derived thumbnail, the mp4 and webm 1080p sources and no subtitles or chapters, and agrees with the corrected record |
| VideoHosting.SuppliedFieldsOverride | learnhub/lib/video-hosting.ts:32-51 | in the record as the code builds it, every supplied metadata key replaces its default, the id and an empty title included, and every absent key keeps its default |
| VideoHosting.TitleFallsBackToFileName | learnhub/lib/video-hosting.ts:34 | a missing or empty title becomes the file name, so a non-empty file name never yields an empty title |
| VideoHosting.AsWrittenMetadata | learnhub/lib/video-hosting.ts:32-51 | the record `uploadVideo` builds, the metadata spread over the defaults; SuppliedFieldsOverride, DefaultsWithoutMetadata and AsWrittenKeepsEmptyTitle state its fields |
| VideoHosting.AsWrittenKeepsEmptyTitle | learnhub/lib/video-hosting.ts:34-51 | with the spread after the fallback, a supplied empty title is stored empty although the fallback intends the file name |
| VideoHosting.VideoHostingService.constructor | learnhub/lib/video-hosting.ts:26 | a new service stores no videos |
| VideoHosting.VideoHostingService.UploadVideo | learnhub/lib/video-hosting.ts:28-55 | the returned record is the one the code builds, with the metadata spread over the defaults for the generated id; it is stored under that id and every other entry is unchanged |
| VideoHosting.VideoHostingService.GetVideo | learnhub/lib/video-hosting.ts:57-59 | the stored record for an uploaded id, null exactly for an id never stored |
| VideoHosting.VideoHostingService.GetVideosByIds | learnhub/lib/video-hosting.ts:61-63 | the result is exactly the stored records of the known requested ids, one per occurrence, in request order; unknown ids are dropped |
| VideoHosting.UploadThenGet | learnhub/lib/video-hosting.ts:53-59 | after an upload the new id finds the new record and every other id finds what it found before |
| YouTubePlayer.IdRun | learnhub/components/courses/youtube-player.tsx:29-35 | the capture of `[a-zA-Z0-9_-]+` is the longest prefix of id characters: every character is one and the next one is not |
| YouTubePlayer.IdRunOf | learnhub/components/courses/youtube-player.tsx:29-35 | a run of id characters followed by a non-id character or the end is captured whole |
| YouTubePlayer.FirstMatch | learnhub/components/courses/youtube-player.tsx:29-35 | no result exactly when no position matches; otherwise the capture at the leftmost matching position |
| YouTubePlayer.ExtractVideoId | learnhub/components/courses/youtube-player.tsx:27-38 | the id of a YouTube URL; ExtractPrecedence and ExtractedIdShape state which pattern decides and the id's form |
| YouTubePlayer.ExtractPrecedence | learnhub/components/courses/youtube-player.tsx:27-38 | an embed match wins, a watch match counts only without one, a short-link match only without both, and null exactly when none of the three matches |
| YouTubePlayer.ExtractedIdShape | learnhub/components/courses/youtube-player.tsx:29-36 | an extracted id is at least six id characters and is the run after some marker |
| YouTubePlayer.EmbedExample | learnhub/components/courses/youtube-player.tsx:29-30 | an embed URL with a query string yields the id up to the "?" |
| YouTubePlayer.ShortIdRejected | learnhub/components/courses/youtube-player.tsx:32-37 | an id of fewer than six characters yields null |
| YouTubePlayer.CompletionGuard.constructor | learnhub/components/courses/youtube-player.tsx:24 | a fresh mount has not completed and has called onComplete zero times |
| YouTubePlayer.CompletionGuard.Complete | learnhub/components/courses/youtube-player.tsx:61-64 | onComplete fires exactly when it has not fired before, so at most once per mount |
| YouTubePlayer.CompletionGuard.OnStateChange | learnhub/components/courses/youtube-player.tsx:58-66 | the ended state fires onComplete exactly when not yet completed; other states change nothing |
| YouTubePlayer.CompletionGuard.OnPoll | learnhub/components/courses/youtube-player.tsx:80-83 | reaching the threshold fires onComplete exactly when not yet completed; below it nothing changes |
| ObjectKeys.InsertKey | learnhub/lib/course-materials.ts:999-1000 | the key order after a new key is added: one more key, and exactly the old keys and the new one |
| ObjectKeys.InsertKeyOrdered | learnhub/lib/course-materials.ts:999-1011 | adding a new key keeps the keys distinct and in JavaScript's key order: array-index keys first, each after only smaller indices |
| ObjectKeys.InsertKeyKeepsOthersInOrder | learnhub/lib/course-materials.ts:999-1011 | keys that are not array indices keep the order in which they were added, the new one last |
| ObjectKeys.IndexKeyExamples | learnhub/lib/course-materials.ts:1011 | "0" is visited before "1", "10" after "9", and the non-canonical "01" after all indices |
| Sorting.StableSortSorted | learnhub/lib/courses.ts:281-297 | the library sort returns a sequence ordered by the comparator's key |
| Sorting.StableSortKeyClass | learnhub/lib/courses.ts:281-297 | the sort is stable: the elements with equal keys keep their input order, and none is lost or added |

## Left out

- Clock and randomness: `Date.now()` and `Math.random()` are parameters (`now`, the random id suffixes), so ids and timestamps are whatever the caller passes.
- I/O: blob storage, the database, `fetch`, `localStorage` and cookies are not modelled. Their outcomes are parameters, for example the storage put outcome of the upload route.
- Middleware: the Next.js `matcher` configuration is not modelled. The handler's decision is modelled for every path.
- Seeded material table: only the fields the logic reads are kept. Display-only fields are dropped.
- Object key order: `for ... in` iteration over the material table is an explicit key sequence, kept in JavaScript's own-key order by `ObjectKeys`. Inherited enumerable keys and prototype keys such as `constructor` are not modelled.
- String lengths count characters, not UTF-16 code units.
- Strings.Lower: lower-cases ASCII letters only; JavaScript's full Unicode case mapping is not modelled. The same holds for RecommendationEngine's keyword matching.
- ProgressTracking.Percent: `Math.round` is modelled in exact arithmetic with halves rounding up, not on IEEE doubles. Ratings and scores are `real` numbers.
- CourseContent: the random lesson fields (duration, type, the random `completed` flag) and the `modules` grouping reduce are not modelled.
- CourseContent.CourseContentView.HandleMaterialComplete: states the tracker and certificates after the call only when no user is signed in. With a user it states the view state, and the tracker calls carry their own contracts.
- Community.FormatFileSize: only the zero case is modelled; other sizes are computed with floating point and give None.
- Community.TimeAgoLabels: the locale date string for dates older than 30 days is None, since `toLocaleDateString` depends on the runtime locale.
- YouTubePlayer.CompletionGuard.OnPoll: the 95 % threshold test on floating-point progress is abstracted as a boolean parameter.
- YouTubePlayer: the YouTube iframe API, the polling interval and the player lifecycle are not modelled.
- NewPostDialog: `isSubmitting`, the `setTimeout` delay and `onOpenChange` are not modelled.
- UserManagement: join dates, last-login dates and activity counters of the admin users are not modelled.
- ProtectedRoute: the fallback node is a string, and the loading spinner is a result case.
- CourseMaterialUploader: the file upload itself is I/O and is not modelled. The uploaded files arrive as parameters.
- ProgressTracking.LessonUpdate: has no `lessonId` field. `Object.assign` at learnhub/lib/progress-tracking.ts:121 would let an update rename the lesson record; the only caller never passes one.
- NewPostDialog.Dialog.HandleSubmit: a throwing `onSubmit` (learnhub/components/community/new-post-dialog.tsx:99-100) is not modelled. That path sets the "Failed to create post. Please try again." error and skips the reset.
- VideoHosting.PartialMetadata: a key present with the value `undefined` is the same as an absent key. The model cannot express the spread writing `undefined` over a default.
- CourseMaterials: `validateMaterialAccess` is not modelled. It is a stub that grants every request.
- MaterialsUploadRoute.Post: the stored upload is a parameter, because the blob write is I/O.
- RecommendationEngine: the chatbot's `conversationHistory` is modelled by its length, the only property of it the code reads.
- ChatbotRoute: a failed request is modelled as a missing body or message. Exceptions thrown by the engine are not modelled.

## Findings

| source | as written | input that shows it | evidently intended | confidence | as-written member | corrected member |
|---|---|---|---|---|---|---|
| learnhub/lib/video-hosting.ts:34-51 | `title: metadata.title \|\| file.name` comes before `...metadata`, so the spread puts a supplied empty title back | metadata `{ title: "" }` with a file named `a.mp4` | the title falls back to the file name | not executed | VideoHosting.AsWrittenKeepsEmptyTitle | VideoHosting.TitleFallsBackToFileName |

`VideoHosting.AsWrittenMetadata` is the record as the code builds it, and `VideoHostingService.UploadVideo` stores it. `VideoHosting.UploadedMetadata` is the intended record, with the fallback applied after the spread, and `VideoHosting.TitleFallsBackToFileName` proves the fallback for it.
