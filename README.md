# Portfolio CMS — a Dafny model

This project models the core of a portfolio content-management system in Dafny. The system has three parts:

- an Express/MongoDB backend: authentication, security middleware, contact messages, blog posts, projects, services and file uploads;
- a React admin panel: the auth context, the sidebar, and the pages for projects, services, blogs, settings and contacts;
- a public React site: the blog list, a blog post, the portfolio and the contact form.

The layout follows the source, one module per source file:

- **Collections.** Each MongoDB collection the routes change in place is a class holding a `seq` of records in insertion order, with unique ids: `ContactStore`, `BlogStore`, `ProjectStore`, `ServiceStore`, `AuthServer`. Each route handler is a method. Its `ensures` gives the HTTP answer as a `Response` and states the new contents of the collection. The queries are functions over the sequence: a filter followed by a stable sort on the route's sort key.
- **Schema rules.** The rules of the Mongoose schemas (required fields, `trim`, `lowercase`, enums and defaults) are predicates and constructors of records. Each state-changing route is proved to keep them.
- **Admin pages.** The form conversions are pure functions, proved to round-trip: a list joined into a text field and split back. State the pages keep across events is a class: the image list of the project form, the Contacts page, and the auth provider. Each class method is tied to a function of its old state.
- **Public pages.** The public pages are functions of what the server answered. A server answer that can fail is an `Option` parameter.

Supporting modules:

- `Common`: option, response, JavaScript truthiness;
- `Text`: ECMAScript `trim`, ASCII `toLowerCase`, `split`, `join`, `parseInt`;
- `Seqs`: filter, take, stable sort;
- `Store`: id lookup in a collection.

## Model

| member | source | states |
|---|---|---|
| Common.FilterParam | admin/src/pages/Contacts.jsx:19 | the `all` filter sends no query parameter; any other filter is sent as given |
| Common.LabelOr | frontend/src/pages/Portfolio.jsx:136 | an unknown value is shown as itself; a known value shows the label of its first option |
| Text.Trim | backend/models/Contact.js:4-8 | the result has no leading or trailing whitespace, and is a prefix of what follows the leading whitespace of the input |
| Text.TrimIdempotent | backend/models/Project.js:4-8 | trimming twice is trimming once |
| Text.ToLower | backend/models/Project.js:9-14 | same length, each character lower-cased, the result is lower-case |
| Text.ToLowerIdempotent | backend/routes/projects.js:33-58 | lower-casing a slug twice is lower-casing it once |
| Text.ParseIntOr | admin/src/pages/Blogs.jsx:100 | `parseInt(x) \|\| d`: the parsed value when it is a non-zero number, otherwise the default |
| Text.ParseIntOfDecimal | admin/src/pages/Blogs.jsx:100 | the decimal text of a number parses back to that number |
| Text.TrimRemovesOnlySurroundingSpace | backend/models/Contact.js:4-8 | the input is some whitespace, then the trimmed text, then some whitespace: trimming removes nothing else |
| Text.SplitHead | admin/src/pages/Projects.jsx:59 | the first piece of a split is the text up to the first separator, or the whole text when there is none |
| Text.Utf16Length | backend/models/Project.js:18 | a JavaScript string length counts one or two UTF-16 code units per character |
| Text.Utf16LengthConcat | backend/routes/auth.js:114 | the length of a concatenation is the sum of the lengths |
| Text.Utf16LengthOfBmp | backend/routes/auth.js:114 | the JavaScript length equals the number of characters exactly when every character is in the Basic Multilingual Plane |
| AuthRoutes.ToPublic | backend/routes/auth.js:69-78 | the user in a response keeps the id, e-mail, name and role and has no password hash |
| AuthRoutes.ToPublicHidesPassword | backend/routes/auth.js:69-78 | the public user does not depend on the password hash or the last login |
| AuthRoutes.DecideLogin | backend/routes/auth.js:9-53 | login is granted only to a user whose stored e-mail is the given one lower-cased, as the schema's `lowercase` setter casts the query value |
| AuthRoutes.MissingCredentialsBeforeLookup | backend/routes/auth.js:14-19 | a missing e-mail or password gives 400 whatever the users are |
| AuthRoutes.UnknownEmailLooksLikeWrongPassword | backend/routes/auth.js:22-41 | an unknown e-mail and a wrong password give the same 401 answer |
| AuthRoutes.WrongPasswordIndistinguishable | backend/routes/auth.js:22-41 | when no user with that e-mail has a matching password, the answer is the same 401 as for an unknown address |
| AuthRoutes.DeactivatedOnlyAfterPassword | backend/routes/auth.js:44-49 | the 403 for a deactivated account comes only after a correct password |
| AuthRoutes.LoginSucceedsExactly | backend/routes/auth.js:22-78 | login succeeds exactly for the first user whose stored e-mail is the lower-cased given one (the one `findOne` returns), when active with a matching password, and returns the token signed over its id and stored e-mail with a 7-day expiry, and its public user |
| AuthRoutes.LoginIgnoresEmailCase | backend/routes/auth.js:22 | two addresses that differ only in letter case get the same login response |
| AuthRoutes.DecideChangePassword | backend/routes/auth.js:107-128 | with both passwords sent as strings, a password is changed only when both are present and the new one is at least six UTF-16 code units long, as JavaScript's `length` counts; this is the corrected half of the Findings row on non-string passwords |
| AuthRoutes.CastToString | backend/routes/auth.js:131 | the stored password is a string body value as sent, and a non-negative number's decimal text |
| AuthRoutes.DecideChangePasswordAsWritten | backend/routes/auth.js:107-128 | over any JSON scalar: on a string it is the string-only decision; the password is changed exactly when both values are truthy, the new one is not a string shorter than six code units, and the current one matches |
| AuthRoutes.NumericPasswordSkipsLength | backend/routes/auth.js:114-131 | the number 12 passes the length check and is stored as the two-character password "12" |
| AuthRoutes.ChangePasswordOrder | backend/routes/auth.js:107-128 | the checks run in order: presence, then the UTF-16 length, then the current password |
| AuthRoutes.AuthServer.constructor | backend/routes/auth.js:9-171 | the server starts with the given users and an empty session |
| AuthRoutes.AuthServer.Login | backend/routes/auth.js:9-86 | the answer is the login decision; a granted login records the last login and the session, and nothing else changes |
| AuthRoutes.AuthServer.Me | backend/routes/auth.js:89-99 | `/me` answers with the public view of the signed-in user |
| AuthRoutes.AuthServer.ChangePassword | backend/routes/auth.js:102-145 | only a successful change replaces the hash, and only that user's |
| AuthRoutes.AuthServer.Logout | backend/routes/auth.js:148-169 | the session is destroyed, the users are unchanged, and the answer is 200 |
| Security.ValidateFileUpload | backend/middleware/security.js:25-48 | a rejected upload is answered with 400 |
| Security.UploadAcceptedExactly | backend/middleware/security.js:25-48 | an upload passes exactly when there is no file, or its type is allowed and its size is at most 5 MB |
| Security.UploadTypeCheckedFirst | backend/middleware/security.js:33-45 | the type is checked before the size; the 5 MB limit is inclusive |
| Security.Collapse | backend/middleware/security.js:51-58 | an array parameter becomes its first element; any other value is kept |
| Security.CollapseIdempotent | backend/middleware/security.js:51-58 | collapsing twice is collapsing once |
| Security.Query.constructor | backend/middleware/security.js:51-58 | a query holds distinct keys and one value per key |
| Security.Query.PreventParamPollution | backend/middleware/security.js:51-58 | the keys are kept and every value is collapsed |
| Security.CheckSession | backend/middleware/security.js:61-70 | the request passes exactly when the session has a user id; otherwise 401 |
| Security.AccessDecision | backend/middleware/security.js:82-93 | an address passes exactly when it is not blacklisted; otherwise 403 |
| Security.IpBlacklist.constructor | backend/middleware/security.js:80 | the blacklist starts empty |
| Security.IpBlacklist.Block | backend/middleware/security.js:96-99 | the address is added to the blacklist |
| Security.IpBlacklist.Unblock | backend/middleware/security.js:102-105 | the address is removed from the blacklist |
| Security.IpBlacklist.CheckIPAccess | backend/middleware/security.js:82-93 | the decision is made on `req.ip`, or on the socket address when `req.ip` is absent |
| Security.ApplyOps | backend/middleware/security.js:96-105 | an address no operation names keeps its state |
| Security.LastOpDecides | backend/middleware/security.js:82-105 | the last block or unblock of an address decides its access |
| Security.BlockIdempotent | backend/middleware/security.js:96-105 | blocking twice is blocking once; unblocking undoes a block; other addresses are unaffected |
| ContactModel.StatusName | backend/models/Contact.js:35-39 | every status is one of the four enum names |
| ContactModel.ParseStatus | backend/models/Contact.js:37 | a text parses exactly when it is one of the enum names |
| ContactModel.StatusNamesRoundTrip | backend/models/Contact.js:37 | name and parse are inverse |
| ContactModel.OrEmpty | backend/models/Contact.js:15-26 | an absent optional text defaults to the empty string |
| ContactModel.NormalizeEmail | backend/models/Contact.js:9-14 | the stored e-mail is trimmed and lower-case, and no longer than the input |
| ContactModel.NewContact | backend/models/Contact.js:4-49 | a contact is created exactly when the body passes the schema; it is then valid and carries the given id, address and time; the name is the trimmed name, the e-mail the trimmed lower-cased address, subject and message as sent, the status as sent or `new`, and each optional field as sent or empty |
| ContactRoutes.ListContacts | backend/routes/contacts.js:34-52 | newest first; each contact of the requested status kept as often as it is stored; no status means every contact |
| ContactRoutes.MarkRead | backend/routes/contacts.js:67-70 | opening a `new` message marks it `read`; nothing else changes |
| ContactRoutes.MarkReadIdempotent | backend/routes/contacts.js:67-70 | opening twice is opening once, and a valid contact stays valid |
| ContactRoutes.ApplyUpdate | backend/routes/contacts.js:88-102 | an unknown status is refused; a present status and a defined note replace the stored ones, and nothing else changes |
| ContactRoutes.CountStatus | backend/routes/contacts.js:180-183 | the count is the number of stored contacts with that status |
| ContactRoutes.StatusPositions | backend/routes/contacts.js:180-183 | counting the contacts that satisfy the status test counts the positions holding that status |
| ContactRoutes.StatusCountsPartition | backend/routes/contacts.js:179-183 | the four status counts add up to the total |
| ContactRoutes.Stats | backend/routes/contacts.js:177-202 | the statistics give the total and the count of each status, and the counts add up to the total |
| ContactRoutes.ContactStore.constructor | backend/routes/contacts.js:8-31 | the store starts empty |
| ContactRoutes.ContactStore.Submit | backend/routes/contacts.js:8-31 | an accepted body is stored with the client address and answered with 201; a refused body changes nothing and gets 500 |
| ContactRoutes.ContactStore.Save | backend/routes/contacts.js:15-16 | saving a valid contact that carries the next id appends it and keeps ids unique, below the counter, and every stored contact valid |
| ContactRoutes.ContactStore.List | backend/routes/contacts.js:34-52 | the listing is the newest-first filtered list |
| ContactRoutes.ContactStore.Get | backend/routes/contacts.js:55-83 | an unknown id gives 404; a known one is marked read in place and returned |
| ContactRoutes.ContactStore.Update | backend/routes/contacts.js:86-116 | an unknown id gives 404, an invalid status gives 500, otherwise the contact is updated in place |
| ContactRoutes.ContactStore.Delete | backend/routes/contacts.js:152-174 | an unknown id gives 404; otherwise exactly that contact is removed |
| BlogRoutes.LimitOf | backend/routes/blogs.js:20 | a limit applies exactly when the parameter is given and `parseInt` reads a non-zero number from it; it is then positive, that number or its negation |
| BlogRoutes.PublicList | backend/routes/blogs.js:8-35 | only published posts of the category and tag, latest published first; the first `min(limit, all)` posts of the full listing, or all of it when no limit applies |
| BlogRoutes.AllNewestFirst | backend/routes/blogs.js:38-55 | every post, newest first |
| BlogRoutes.DeprecatedBySlug | backend/routes/blogs.js:90-107 | the old slug route ignores its slug and lists every post, newest first |
| BlogRoutes.FindPublished | backend/routes/blogs.js:60-63 | finds a published post with that slug that no earlier post matches, or reports that there is none |
| BlogRoutes.Assign | backend/routes/blogs.js:155 | each editable field (title, slug, excerpt, content, category, tags, featured image, read time, published flag and date) takes the body's value when present and keeps the stored one when absent; the id, views, author and creation time, which the modelled body cannot carry, are kept |
| BlogRoutes.AssignLaws | backend/routes/blogs.js:155 | an empty body changes nothing; applying a body twice is applying it once |
| BlogRoutes.NewBlog | backend/routes/blogs.js:110-122 | a new post has the author, no views, each editable field as sent or empty (read time 0), is published exactly when the body says `true`, and has a publication time of now when published without one |
| BlogRoutes.UpdatedBlog | backend/routes/blogs.js:150-155 | the stored post becomes the assignment of the body; when the body publishes a draft, its publication time is then set to now |
| BlogRoutes.BlogStore.constructor | backend/routes/blogs.js:110-136 | the store starts empty |
| BlogRoutes.BlogStore.ViewBySlug | backend/routes/blogs.js:58-87 | an unknown slug gives 404; a published post is returned with its views increased by one |
| BlogRoutes.BlogStore.Create | backend/routes/blogs.js:110-136 | the new post is appended and returned with 201 |
| BlogRoutes.BlogStore.Update | backend/routes/blogs.js:139-170 | an unknown id gives 404; otherwise the post is updated in place |
| BlogRoutes.BlogStore.Delete | backend/routes/blogs.js:173-195 | an unknown id gives 404; otherwise exactly that post is removed |
| ProjectModel.CategoryName | backend/models/Project.js:24-28 | every category is one of the six enum names |
| ProjectModel.ParseCategory | backend/models/Project.js:27 | a text parses exactly when it is one of the enum names |
| ProjectModel.CategoryNamesRoundTrip | backend/models/Project.js:27 | name and parse are inverse |
| ProjectModel.ApplyBody | backend/models/Project.js:4-69 | each present field replaces the stored one (title trimmed, slug lower-cased, category by its enum name) and each absent field is kept; the id and creation time are kept |
| ProjectModel.ApplyBodyKeepsValid | backend/routes/projects.js:99-126 | an accepted update keeps a valid project valid |
| ProjectModel.NewProject | backend/models/Project.js:4-69 | a project is created exactly when the body passes the schema (a short description of at most 200 UTF-16 code units); it has the trimmed title, the lower-cased slug, the descriptions and category sent, every optional field as sent, and the schema default for each one left out |
| ProjectRoutes.PublicList | backend/routes/projects.js:8-30 | active projects of the category, featured only when asked with `true`, sorted by order and then newest |
| ProjectRoutes.FeaturedOnlyForTrue | backend/routes/projects.js:14 | any `featured` value other than `true` is ignored |
| ProjectRoutes.AdminList | backend/routes/projects.js:61-76 | every project, sorted by order and then newest |
| ProjectRoutes.FindActive | backend/routes/projects.js:33-45 | finds an active project whose slug is the lower-cased request slug, or reports that there is none |
| ProjectRoutes.FindActiveIgnoresCase | backend/routes/projects.js:33-45 | the lookup does not depend on the case of the slug |
| ProjectRoutes.ProjectStore.constructor | backend/routes/projects.js:79-96 | the store starts empty |
| ProjectRoutes.ProjectStore.BySlug | backend/routes/projects.js:33-58 | found exactly when some stored project is active with the lower-cased slug; the answer is then the first such project with 200, otherwise 404 |
| ProjectRoutes.ProjectStore.Create | backend/routes/projects.js:79-96 | an accepted body is appended and answered with 201; a refused one gives 500 and changes nothing |
| ProjectRoutes.ProjectStore.Append | backend/routes/projects.js:81-82 | saving a valid project with the next id and a free slug appends it and keeps the store's invariant |
| ProjectRoutes.ProjectStore.Update | backend/routes/projects.js:99-126 | an invalid body gives 500 before the lookup; an unknown id gives 404; otherwise the project is updated in place and stays valid |
| ProjectRoutes.ProjectStore.Delete | backend/routes/projects.js:129-151 | an unknown id gives 404; otherwise exactly that project is removed |
| ServiceModel.PricingTypeName | backend/models/Service.js:43-47 | every pricing type is one of the four enum names |
| ServiceModel.ParsePricingType | backend/models/Service.js:45 | a text parses exactly when it is one of the enum names |
| ServiceModel.PricingTypeNamesRoundTrip | backend/models/Service.js:45 | name and parse are inverse |
| ServiceModel.PricingOf | backend/models/Service.js:38-52 | each given pricing value is kept; a missing one takes its default of 0, `custom` or `TRY` |
| ServiceModel.ApplyBody | backend/models/Service.js:4-60 | each present field replaces the stored one (title trimmed, slug lower-cased, pricing with its defaults) and each absent field is kept; the id and creation time are kept |
| ServiceModel.ApplyBodyKeepsValid | backend/routes/services.js:93-120 | an accepted update keeps a valid service valid |
| ServiceModel.NewService | backend/models/Service.js:4-60 | a service is created exactly when the body passes the schema (a short description of at most 200 UTF-16 code units); it has the trimmed title, the lower-cased slug, the descriptions sent, every optional field as sent (pricing with its sub-field defaults), and the schema default for each one left out |
| ServiceRoutes.PublicList | backend/routes/services.js:8-24 | active services only, sorted by order and then newest |
| ServiceRoutes.AdminList | backend/routes/services.js:55-70 | every service, sorted by order and then newest |
| ServiceRoutes.PublicIsActiveAdmin | backend/routes/services.js:8-70 | the public list holds exactly the active services of the admin list |
| ServiceRoutes.FindActive | backend/routes/services.js:27-39 | finds an active service whose slug is the lower-cased request slug, or reports that there is none |
| ServiceRoutes.ServiceStore.constructor | backend/routes/services.js:73-90 | the store starts empty |
| ServiceRoutes.ServiceStore.BySlug | backend/routes/services.js:27-52 | found exactly when some stored service is active with the lower-cased slug; the answer is then the first such service with 200, otherwise 404 |
| ServiceRoutes.ServiceStore.Create | backend/routes/services.js:73-90 | an accepted body is appended and answered with 201; a refused one gives 500 and changes nothing |
| ServiceRoutes.ServiceStore.Append | backend/routes/services.js:75-76 | saving a valid service with the next id and a free slug appends it and keeps the store's invariant |
| ServiceRoutes.ServiceStore.Update | backend/routes/services.js:93-120 | an invalid body gives 500 before the lookup; an unknown id gives 404; otherwise the service is updated in place and stays valid |
| ServiceRoutes.ServiceStore.Delete | backend/routes/services.js:123-145 | an unknown id gives 404; otherwise exactly that service is removed |
| UploadRoutes.PublicPath | backend/routes/upload.js:17 | the public path is `/uploads/` followed by the stored file name |
| UploadRoutes.FilenameOf | backend/routes/upload.js:17 | a path under `/uploads/` names the file it was built from |
| UploadRoutes.PublicPathRoundTrip | backend/routes/upload.js:17 | the path gives back the file name, and different files get different paths |
| UploadRoutes.UploadMain | backend/routes/upload.js:8-35 | no file gives 400; otherwise 200 with the file's path and names |
| UploadRoutes.Describe | backend/routes/upload.js:47-53 | the description keeps the file's names and size, and its URL gives back the file name |
| UploadRoutes.UploadSingle | backend/routes/upload.js:38-66 | no file gives 400; otherwise 200 with the file's description |
| UploadRoutes.DescribeAll | backend/routes/upload.js:78-83 | one description per file, in order |
| UploadRoutes.DistinctUrls | backend/routes/upload.js:78-83 | two uploaded files share a URL exactly when they share a stored name |
| UploadRoutes.UploadMultiple | backend/routes/upload.js:69-97 | no files or an empty list gives 400; otherwise 200 with a non-empty list of descriptions |
| AdminForms.LinesList | admin/src/pages/Projects.jsx:167-168 | an empty text gives no items; otherwise the non-blank lines, in order |
| AdminForms.JoinLines | admin/src/pages/Projects.jsx:62-63 | no list gives the empty text |
| AdminForms.LinesRoundTrip | admin/src/pages/Projects.jsx:62-63 | joining non-blank single-line items with newlines and splitting them back gives the items |
| AdminForms.CommaList | admin/src/pages/Blogs.jsx:99 | an empty text gives no items; otherwise the trimmed, non-empty comma-separated pieces |
| AdminForms.CommaRoundTrip | admin/src/pages/Blogs.jsx:44 | joining trimmed, non-empty items without commas by `, ` and splitting them back gives the items |
| AdminForms.SaveTargetFor | admin/src/pages/Projects.jsx:173-193 | editing saves with PUT to that id, otherwise with POST |
| AdminProjectsPage.ImageEntry.constructor | admin/src/pages/Projects.jsx:128-131 | an image entry holds its URL and caption |
| AdminProjectsPage.RefsOf | admin/src/pages/Projects.jsx:67 | the images as `{url, caption}` records, one per entry |
| AdminProjectsPage.ImageList.constructor | admin/src/pages/Projects.jsx:49-73 | the image list starts empty |
| AdminProjectsPage.ImageList.Load | admin/src/pages/Projects.jsx:67 | opening the form puts the project's own image objects in the list, shared and not copied |
| AdminProjectsPage.ImageList.AddUploaded | admin/src/pages/Projects.jsx:115-150 | an upload appends a new entry with the file's path and an empty caption |
| AdminProjectsPage.ImageList.UpdateCaption | admin/src/pages/Projects.jsx:153-157 | the caption of that entry is changed in place; the list itself is not replaced |
| AdminProjectsPage.ImageList.Remove | admin/src/pages/Projects.jsx:159-161 | exactly the entry at that index is removed |
| AdminProjectsPage.ReopenAfterCancelledEdit | admin/src/pages/Projects.jsx:67-157 | a caption typed and then abandoned is still there when the project is opened again, because the list shares the project's image objects |
| AdminProjectsPage.DateField | admin/src/pages/Projects.jsx:59 | no date gives an empty field; a date gives its text up to the first `T`, all of it when there is none |
| AdminProjectsPage.OpenEdit | admin/src/pages/Projects.jsx:49-73 | the form shows the lists one per line and the day of the completion date |
| AdminProjectsPage.Submit | admin/src/pages/Projects.jsx:163-171 | the lists are split into non-blank lines, an empty date becomes null, and the images are sent as they are |
| AdminProjectsPage.EditRoundTrip | admin/src/pages/Projects.jsx:49-171 | opening a project and saving it unchanged sends back its features, technologies and completion day |
| AdminProjectsPage.CategoryLabel | admin/src/pages/Projects.jsx:243-245 | an unknown category is shown as itself |
| AdminProjectsPage.EveryCategoryLabelled | admin/src/pages/Projects.jsx:19-26 | every stored category has its label |
| AdminServicesPage.OpenPricing | admin/src/pages/Services.jsx:45-47 | no pricing shows 0, `custom` and `TRY`; a pricing shows its own price and type, and its currency or `TRY` when the currency is empty |
| AdminServicesPage.SubmitPricing | admin/src/pages/Services.jsx:68-72 | the starting price is `parseInt(x) \|\| 0`, and the type and currency are sent as chosen |
| AdminServicesPage.Submit | admin/src/pages/Services.jsx:62-73 | the lists are split into non-blank lines and the pricing is converted |
| AdminServicesPage.EditRoundTrip | admin/src/pages/Services.jsx:35-73 | opening a service and saving it unchanged sends back its lists and its pricing |
| AdminBlogsPage.OpenEdit | admin/src/pages/Blogs.jsx:36-54 | tags joined by `, `; a zero read time shows 5 |
| AdminBlogsPage.Submit | admin/src/pages/Blogs.jsx:95-101 | tags split on commas and trimmed; the read time is `parseInt(x) \|\| 5` and never 0 |
| AdminBlogsPage.EditRoundTrip | admin/src/pages/Blogs.jsx:36-101 | opening a post and saving it unchanged sends back its tags and its read time |
| AdminBlogsPage.NewPostSubmits | admin/src/pages/Blogs.jsx:48-52 | a new post's form submits no tags, a read time of 5, and is not published |
| AdminSettingsPage.OnPasswordSubmit | admin/src/pages/Settings.jsx:64-80 | a request is sent exactly when the two new passwords agree, and carries the current and new password |
| AdminSettingsPage.ClientRulesMatchServer | admin/src/pages/Settings.jsx:172-203 | a form the page accepts passes the server's presence and length checks, both counting UTF-16 code units; a new password shorter than 6 units is refused by both |
| AdminSettingsPage.OnContentSubmit | admin/src/pages/Settings.jsx:101-127 | skills split on commas, years `parseInt(x) \|\| 0`, PUT when content was loaded and POST otherwise |
| AdminSettingsPage.ContentRoundTrip | admin/src/pages/Settings.jsx:20-127 | loading content and saving it unchanged sends back its skills and years |
| AdminContactsPage.FilterButtonsSelectStatus | admin/src/pages/Contacts.jsx:17-27 | each filter button lists exactly the contacts of its status, and `all` lists every contact |
| AdminContactsPage.FilterButtonsAreStatuses | admin/src/pages/Contacts.jsx:123 | every button other than `all` is a status, and every status has a button |
| AdminContactsPage.BadgesCoverStatuses | admin/src/pages/Contacts.jsx:94-112 | every status has a badge, only statuses do, and different statuses have different labels |
| AdminContactsPage.ButtonsDisabledAtTarget | admin/src/pages/Contacts.jsx:292-301 | the two buttons, each disabled at its own target status, are never disabled together |
| AdminContactsPage.UpdateStatusSeeing | admin/src/pages/Contacts.jsx:39-55 | the status is sent; on success the list is fetched again, and the open message shows the new status when it is the one the handler saw |
| AdminContactsPage.UpdateStatus | admin/src/pages/Contacts.jsx:39-55 | the open message changes only on success and only when it is the updated one, and then only its status |
| AdminContactsPage.ViewContactAsWritten | admin/src/pages/Contacts.jsx:29-37 | opening a message opens the modal and sends the status update of a new message |
| AdminContactsPage.ViewContact | admin/src/pages/Contacts.jsx:29-45 | opening a new message shows it as read once the update succeeds |
| AdminContactsPage.ViewMarksNewOnce | admin/src/pages/Contacts.jsx:29-37 | opening sends one update to `read` for a new message and none otherwise; after a successful update the modal no longer shows `new` |
| AdminContactsPage.StaleStatusAfterView | admin/src/pages/Contacts.jsx:29-45 | as written, the modal of a new message still shows `new` after it was marked read |
| AdminContactsPage.DeleteSelected | admin/src/pages/Contacts.jsx:57-92 | nothing without confirmation; a successful delete closes the modal; a failed one leaves it as it was |
| AdminContactsPage.ContactsPage.constructor | admin/src/pages/Contacts.jsx:17-27 | the page starts with the list requested and no message open |
| AdminContactsPage.ContactsPage.SetStatus | admin/src/pages/Contacts.jsx:39-55 | the page state after a status change is `UpdateStatus` of the state before |
| AdminContactsPage.ContactsPage.View | admin/src/pages/Contacts.jsx:29-37 | the page state after opening is `ViewContact` of the state before: the corrected behaviour of the finding below, in which the modal shows the message as read once the update succeeds |
| AdminContactsPage.ContactsPage.Delete | admin/src/pages/Contacts.jsx:57-92 | the page state after a delete is `DeleteSelected` of the state before |
| AdminAuthContext.HeaderFor | admin/src/context/AuthContext.jsx:21 | the header is `Bearer ` followed by the token |
| AdminAuthContext.TokenOf | admin/src/context/AuthContext.jsx:45 | a header with the `Bearer ` prefix gives its token |
| AdminAuthContext.HeaderRoundTrip | admin/src/context/AuthContext.jsx:45 | the header gives back its token, and different tokens give different headers |
| AdminAuthContext.AuthProvider.IsAuthenticated | admin/src/context/AuthContext.jsx:60 | authenticated exactly when a user is set |
| AdminAuthContext.AuthProvider.ShowsChildren | admin/src/context/AuthContext.jsx:67 | the children are shown exactly when loading has ended |
| AdminAuthContext.AuthProvider.constructor | admin/src/context/AuthContext.jsx:14-26 | a stored token sets the header and starts loading; no token ends loading at once |
| AdminAuthContext.AuthProvider.CheckAuth | admin/src/context/AuthContext.jsx:28-38 | a valid token sets the user; an invalid one clears the token and the header; loading ends either way |
| AdminAuthContext.AuthProvider.Login | admin/src/context/AuthContext.jsx:40-49 | a successful login stores the token, sets the header and the user, and returns the answer; a failure changes nothing |
| AdminAuthContext.AuthProvider.Logout | admin/src/context/AuthContext.jsx:51-55 | the token, the header and the user are cleared |
| AdminAuthContext.SignInOut | admin/src/context/AuthContext.jsx:14-55 | after a login the header carries the new token and the user is signed in; after a logout there is no header |
| AdminSidebar.ActiveEntries | admin/src/components/Sidebar.jsx:16-19 | the highlighted entries are those whose `isActive` holds for the path |
| AdminSidebar.HrefsArePrefixFree | admin/src/components/Sidebar.jsx:7-14 | no entry's href other than the root's is a prefix of another's |
| AdminSidebar.AtMostOneActive | admin/src/components/Sidebar.jsx:7-19 | at most one entry is highlighted for any path |
| AdminSidebar.RootOnlyDashboard | admin/src/components/Sidebar.jsx:16-19 | the root highlights only the Dashboard, and a path under `/services` highlights only Hizmetler |
| SiteBlogPage.Dedup | frontend/src/pages/Blog.jsx:25 | `new Set`: the same values, each once |
| SiteBlogPage.DedupInFirstOrder | frontend/src/pages/Blog.jsx:25 | the values come in the order of their first appearance |
| SiteBlogPage.Categories | frontend/src/pages/Blog.jsx:25 | `all` first, then each category of the posts once, in order of first use |
| SiteBlogPage.FilteredBlogs | frontend/src/pages/Blog.jsx:34-36 | `all` shows every post; any other category shows exactly its posts |
| SiteBlogPage.FilterKeepsCountAndOrder | frontend/src/pages/Blog.jsx:34-36 | the filter keeps each matching post as often as it occurs, and keeps the order |
| SiteBlogPage.EveryButtonFindsPosts | frontend/src/pages/Blog.jsx:25-36 | when there are posts, no category button gives an empty list |
| SiteBlogPage.EmptyMessage | frontend/src/pages/Blog.jsx:82-87 | the message for `all` is the no-posts text; for a category it starts with the category |
| SiteBlogPage.EmptyMessageNamesCategory | frontend/src/pages/Blog.jsx:82-87 | different categories give different messages |
| SiteBlogDetailPage.Related | frontend/src/pages/BlogDetail.jsx:24-29 | at most three posts of the same category, never the post itself, the first ones of the list |
| SiteBlogDetailPage.RelatedNeverSelf | frontend/src/pages/BlogDetail.jsx:24-29 | the post is never among its related posts; once three matches are found, later posts change nothing |
| SiteBlogDetailPage.FetchBlogAsWritten | frontend/src/pages/BlogDetail.jsx:18-36 | a fetched post replaces the shown one; a failed fetch keeps the post and related list already shown |
| SiteBlogDetailPage.FetchBlog | frontend/src/pages/BlogDetail.jsx:18-36 | the page shows the post of the slug, or none, with related posts of that post only |
| SiteBlogDetailPage.FirstVisitAgrees | frontend/src/pages/BlogDetail.jsx:18-36 | on a first visit the code as written and the corrected code agree |
| SiteBlogDetailPage.StaleRelatedAfterNavigation | frontend/src/pages/BlogDetail.jsx:18-36 | as written, moving to a related post with a failed list shows the post as related to itself, and a failed post fetch keeps the old post |
| SitePortfolioPage.ButtonsSelectCategory | frontend/src/pages/Portfolio.jsx:15-27 | each button lists exactly the active projects of its category, and `all` lists every active project |
| SitePortfolioPage.CardLabels | frontend/src/pages/Portfolio.jsx:136 | each card shows its button's label, or the raw name for `desktop` and `other` |
| SitePortfolioPage.Badges | frontend/src/pages/Portfolio.jsx:141-148 | the first `min(3, n)` technologies are shown in order, and a `+n` badge counting the rest appears exactly when there are more than three |
| SitePortfolioPage.BadgesCountEveryTechnology | frontend/src/pages/Portfolio.jsx:141-148 | each technology is either shown or counted in `+n` |
| SitePortfolioPage.OnPictureClick | frontend/src/pages/Portfolio.jsx:111-116 | the lightbox opens only for a project with a thumbnail, with the base URL and the project's title |
| SitePortfolioPage.LightboxShowsThumbnail | frontend/src/pages/Portfolio.jsx:114 | the lightbox address after the base URL is the thumbnail path |
| SiteContactPage.EmailAccepted | frontend/src/pages/Contact.jsx:201-207 | the one-pass check accepts exactly the addresses matching the e-mail pattern |
| SiteContactPage.MatchAtFirstAtLastDot | frontend/src/pages/Contact.jsx:204 | any match of the pattern has its `@` at the first `@` and its dot at the last dot |
| SiteContactPage.AcceptedEmailShape | frontend/src/pages/Contact.jsx:204 | an accepted address has exactly one `@` and ends in a dot followed by two or more letters |
| SiteContactPage.Validate | frontend/src/pages/Contact.jsx:187-272 | no error exactly when the form is accepted; each field's error names its own rule |
| SiteContactPage.OptionalFieldsFree | frontend/src/pages/Contact.jsx:187-272 | phone, company and service never cause an error |
| SiteContactPage.BodyOf | frontend/src/pages/Contact.jsx:28-34 | the body sends the fields as typed and no status or notes |
| SiteContactPage.ServerAcceptsValidForm | frontend/src/pages/Contact.jsx:28-43 | a form the page's own rules accept is stored by the server exactly when its name is not blank |
| SiteContactPage.ContactForm.constructor | frontend/src/pages/Contact.jsx:8-11 | the form starts empty, with no notice |
| SiteContactPage.ContactForm.Edit | frontend/src/pages/Contact.jsx:180-272 | typing changes only the fields |
| SiteContactPage.ContactForm.Begin | frontend/src/pages/Contact.jsx:28-31 | submitting starts loading and clears both notices |
| SiteContactPage.ContactForm.Finish | frontend/src/pages/Contact.jsx:32-42 | success clears the form and shows the success notice; failure keeps the fields and shows the error; loading ends |
| SiteContactPage.ContactForm.Submit | frontend/src/pages/Contact.jsx:28-43 | a form with an error sends nothing and changes nothing; otherwise it sends its body and runs the loading sequence |

## Left out

- Password hashing and JWT signing are not modelled. They are function-valued parameters, so the login lemmas hold for any comparison and signing function. The token expiry is also not modelled.
- The clock, the client address and the upload's stored file name are parameters.
- The Blog and User schemas and the `authenticate`/`isAdmin` middleware are not part of this model. Blog defaults are those of the fields the routes read. The routes behind that middleware are modelled as if it let the request through.
- The multer storage and its 10-file limit on `/multiple` are not part of this model. Neither is the database, nor the `populate` of the author name.
- Content.js and the `/content` routes are not part of this model. The settings page only sends to them.
- Sorting is stable: records with equal sort keys keep their insertion order. MongoDB does not promise any order for ties.
- `updatedAt` timestamps are not modelled. Neither are the MongoDB ObjectId format and the cast error of a malformed id, which gives 500.
- The rate limiters, the session store and the CORS setup of server.js are not part of this model.
- Async handlers are modelled one at a time. Concurrent requests and interleaved React state updates are not modelled.
- Rendering, styling, the SweetAlert dialogs, icons and success notices are not modelled. Only the state a page keeps and the requests it sends are modelled.
- Text.ToLower: lower-cases ASCII letters only. JavaScript's `toLowerCase` also maps letters outside ASCII.
- Text.ParseIntOr: reads decimal digits only. JavaScript's `parseInt` also reads a `0x` prefix as hexadecimal.
- AdminProjectsPage.ImageList.UpdateCaption: requires an index inside the list, as every caption field on the page has one.
- SiteBlogDetailPage.FetchBlogAsWritten: the loading flag while a new slug is fetched is not modelled, only the state after the fetch.
- BlogRoutes.LimitOf: a `limit` from which `parseInt` reads no number (NaN) is taken as no limit. What `.limit(NaN)` does is decided by Mongoose and the MongoDB driver, which are not part of this model.
- BlogRoutes.Assign: `Object.assign` copies every field of the request body, but the modelled body holds only the editable fields. A body that sets `views`, `author`, `createdAt` or `_id` is not modelled, and a `publishedAt` of `null` or `""` is read as absent rather than clearing the date.
- SiteContactPage.ContactForm.Submit: the browser's own constraint validation of the `type="email"` input and its value sanitization (frontend/src/pages/Contact.jsx:180,200), which strips line breaks and may block submission before the handler runs, are not modelled. Only the `required` and `pattern` options passed to `register` (frontend/src/pages/Contact.jsx:187-272), which SiteContactPage.Validate models, decide whether the form is sent.
- Numbers in request bodies (`order`, `readTime`, `views`, `startingPrice`) are unbounded integers. JavaScript numbers are doubles, and the Mongoose cast error (500) for a non-numeric value in such a field is not modelled.
- The User schema is not part of this model. Its `email` path is taken to have the `lowercase` setter, and no `trim`, so stored addresses are lower-case and a login query is lower-cased the same way.
- AuthRoutes.DecideChangePassword: takes the two passwords as strings. A JSON number or boolean as `newPassword` has no `length`, so the source lets it through the length check; that case is modelled only by AuthRoutes.DecideChangePasswordAsWritten (see Findings), and AuthServer.ChangePassword keeps the string-only check.
- AuthRoutes.DecideLogin: takes the e-mail as a string. A JSON object such as `{"$ne": null}` in its place reaches `findOne` as a query operator, which is not modelled.
- ContactModel.NewContact: the request body is spread into the new contact, so a sender can also set `createdAt` or `_id`, and Mongoose keeps a `createdAt` that is already set. The model always stamps `createdAt` with the time of the request and assigns the id itself, so a client-chosen creation time, and the newest-first position it gives, is not modelled.
- ContactRoutes.ContactStore.Update: also stands for the PATCH `/:id/status` route (backend/routes/contacts.js:119-149), whose handler is the same.
- ContactRoutes.ContactStore.Submit: the body is spread into the new contact, so a sender can set the status. The enum still checks it. The TODO e-mail notification is not modelled.
- Security.IpBlacklist: the blacklist is an in-memory set. Its use as middleware on a route is not shown in the modelled files.
- The dashboard, home, services, project detail and service detail pages, the navbar and the footer are not part of this model.

## Findings

| source | as written | input that shows it | evidently intended | confidence | as-written member | corrected member |
|---|---|---|---|---|---|---|
| admin/src/pages/Contacts.jsx:29-45 | `viewContact` opens the modal with the contact, then `updateStatus` updates `selectedContact` through the closure of the same render, which still holds no message | open message id 7 with status `new` from a page with no message open, the update succeeding | the modal shows the message as `read` | not executed | AdminContactsPage.StaleStatusAfterView | AdminContactsPage.ViewContact |
| frontend/src/pages/BlogDetail.jsx:18-36 | a failed post request keeps the previous post on screen; a failed list request keeps the previous related posts | post A (id 1, category `web`) shown with B (id 2, `web`) as related; follow the link to B and let the list request fail | a new slug shows only its own post and that post's related posts | not executed | SiteBlogDetailPage.StaleRelatedAfterNavigation | SiteBlogDetailPage.FetchBlog |
| backend/routes/auth.js:114-131 | `newPassword.length < 6` is the only length check, and a number has no `length`, so `undefined < 6` is false; the number is then cast to its decimal text by the `String` password path and saved | `{"currentPassword": <the right one>, "newPassword": 12}` | a new password shorter than six characters is refused whatever JSON type it is sent as | not executed | AuthRoutes.NumericPasswordSkipsLength | AuthRoutes.DecideChangePassword |
